/**
 * The Elo engine of the evaluation harness (`EloRatingSystem` in
 * src/elo_system.py): a ratings table with lazy initialisation, an
 * append-only game history, the rating update, the leaderboard, the
 * matchup prediction and the statistics summary.
 *
 * Ratings are reals.  The logistic expectation is not computed: the
 * engine carries it as a function value of which only the two facts in
 * `IsExpectation` are known.
 */
module Elo {
  import opened Wrappers
  import opened Sorting

  /** Defaults of the configuration: an unseen model starts at 1500, and K is 32. */
  const InitialElo: real := 1500.0
  const EloKFactor: real := 32.0

  /**
   * What the model knows of `expected_score(a, b) = 1 / (1 + 10^((b - a) / 400))`:
   * it is a probability strictly between 0 and 1, and the two sides'
   * expectations add up to 1.
   */
  ghost predicate IsExpectation(e: (real, real) -> real) {
    forall a, b :: 0.0 < e(a, b) < 1.0 && e(a, b) + e(b, a) == 1.0
  }

  /** The actual scores of (winner, loser): 1 and 0, or one half each for a draw. */
  function Scores(draw: bool): (real, real) {
    if draw then (0.5, 0.5) else (1.0, 0.0)
  }

  /**
   * The new (winner, loser) ratings.  Both expectations are taken from the
   * ratings before the game, so neither update sees the other.
   */
  function Adjusted(wr: real, lr: real, draw: bool, k: real, e: (real, real) -> real): (r: (real, real))
    requires IsExpectation(e)
    ensures (r.0 - wr) + (r.1 - lr) == 0.0
    ensures !draw && k > 0.0 ==> wr < r.0 < wr + k && lr - k < r.1 < lr
    ensures draw && wr == lr ==> r == (wr, lr)
  {
    var ws, ls := Scores(draw).0, Scores(draw).1;
    var we, le := e(wr, lr), e(lr, wr);
    assert we + le == 1.0;
    assert k * (ws - we) + k * (ls - le) == k * ((ws + ls) - (we + le));
    (wr + k * (ws - we), lr + k * (ls - le))
  }

  function Abs(x: real): real {
    if x < 0.0 then -x else x
  }

  /** The rating `get_rating(m)` returns: the stored one, or the initial one for an unseen model. */
  function RatingOf(ratings: map<string, real>, m: string, init: real): real {
    if m in ratings then ratings[m] else init
  }

  /** The insertion order of the table after `get_rating(m)`, when `known` are the models it holds. */
  function Enrolled(order: seq<string>, known: set<string>, m: string): seq<string> {
    if m in known then order else order + [m]
  }

  predicate Distinct<T(==)>(s: seq<T>) {
    forall i, j :: 0 <= i < j < |s| ==> s[i] != s[j]
  }

  /** `ratings.items()`, in insertion order. */
  function Entries(order: seq<string>, ratings: map<string, real>): seq<(string, real)>
    requires forall m :: m in order ==> m in ratings
  {
    seq(|order|, i requires 0 <= i < |order| => (order[i], ratings[order[i]]))
  }

  /** The sort key of the leaderboard. */
  function EntryRating(entry: (string, real)): real {
    entry.1
  }

  function RatingSum(order: seq<string>, ratings: map<string, real>): real
    requires forall m :: m in order ==> m in ratings
  {
    if order == [] then 0.0 else RatingSum(order[..|order| - 1], ratings) + ratings[order[|order| - 1]]
  }

  /** A game as the history stores it (the timestamp is left out). */
  datatype GameRecord = GameRecord(
    winner: string, loser: string, draw: bool,
    winnerBefore: real, loserBefore: real,
    winnerAfter: real, loserAfter: real)

  /** The content of the ratings file: the table (with its key order) and the history. */
  datatype Snapshot = Snapshot(ratings: map<string, real>, order: seq<string>, history: seq<GameRecord>)

  ghost predicate WellFormed(s: Snapshot) {
    Distinct(s.order) && forall m :: m in s.ratings <==> m in s.order
  }

  // ---------------------------------------------------------------------
  // Matchup prediction

  const RatingDifferenceKey := "rating_difference"

  /**
   * The dictionary `get_matchup_prediction(a, b)` builds from a display
   * `{a: pa, b: pb, "rating_difference": d}`: a later key overwrites an
   * equal earlier one.
   */
  function Prediction(a: string, b: string, ra: real, rb: real, e: (real, real) -> real): (p: map<string, real>)
    requires IsExpectation(e)
    ensures p.Keys == {a, b, RatingDifferenceKey}
    ensures p[RatingDifferenceKey] == if ra < rb then rb - ra else ra - rb
    ensures a != b && a != RatingDifferenceKey && b != RatingDifferenceKey ==>
              0.0 < p[a] < 1.0 && 0.0 < p[b] < 1.0 && p[a] + p[b] == 1.0
    ensures a == b && ra == rb && a != RatingDifferenceKey ==> p[a] == 0.5
  {
    map[a := e(ra, rb)][b := e(rb, ra)][RatingDifferenceKey := Abs(ra - rb)]
  }

  // ---------------------------------------------------------------------
  // Statistics over the history

  function Ind(b: bool): nat {
    if b then 1 else 0
  }

  /** Non-draw games `m` won. */
  function Wins(h: seq<GameRecord>, m: string): nat {
    if h == [] then 0 else Wins(h[..|h| - 1], m) + Ind(!h[|h| - 1].draw && h[|h| - 1].winner == m)
  }

  /** Non-draw games `m` lost. */
  function Losses(h: seq<GameRecord>, m: string): nat {
    if h == [] then 0 else Losses(h[..|h| - 1], m) + Ind(!h[|h| - 1].draw && h[|h| - 1].loser == m)
  }

  /** Draws of `m`, once for each side `m` took. */
  function Draws(h: seq<GameRecord>, m: string): nat {
    if h == [] then 0
    else
      var g := h[|h| - 1];
      Draws(h[..|h| - 1], m) + (if g.draw then Ind(g.winner == m) + Ind(g.loser == m) else 0)
  }

  /** Sides `m` took in the history, whatever the result. */
  function Played(h: seq<GameRecord>, m: string): nat {
    if h == [] then 0
    else Played(h[..|h| - 1], m) + Ind(h[|h| - 1].winner == m) + Ind(h[|h| - 1].loser == m)
  }

  function DrawCount(h: seq<GameRecord>): nat {
    if h == [] then 0 else DrawCount(h[..|h| - 1]) + Ind(h[|h| - 1].draw)
  }

  function AddNew(keys: seq<string>, m: string): seq<string> {
    if m in keys then keys else keys + [m]
  }

  /** The models of the history in order of first appearance (winner before loser). */
  function Appearances(h: seq<GameRecord>): seq<string> {
    if h == [] then []
    else AddNew(AddNew(Appearances(h[..|h| - 1]), h[|h| - 1].winner), h[|h| - 1].loser)
  }

  /** Sum of `Played(h, m)` over the models of `keys`. */
  function PlayedOver(keys: seq<string>, h: seq<GameRecord>): nat {
    if keys == [] then 0 else Played(h, keys[0]) + PlayedOver(keys[1..], h)
  }

  datatype ModelStats = ModelStats(wins: nat, losses: nat, draws: nat, winRate: real, gamesPlayed: nat)

  /** The `model_stats` entry of `m`. */
  function StatsOf(h: seq<GameRecord>, m: string): ModelStats {
    var (w, l, d) := (Wins(h, m), Losses(h, m), Draws(h, m));
    var total := w + l + d;
    ModelStats(w, l, d, if total > 0 then w as real / total as real else 0.0, total)
  }

  datatype Statistics =
    | NoGames(models: nat, averageRating: real)
    | Summary(totalGames: nat, totalDraws: nat, models: nat, averageRating: real,
              modelStats: seq<(string, ModelStats)>, leaderboard: seq<(string, real)>)

  /** Every side a model took is a win, a loss or a draw. */
  lemma {:induction false} PlayedSplits(h: seq<GameRecord>, m: string)
    ensures Wins(h, m) + Losses(h, m) + Draws(h, m) == Played(h, m)
  {
    if h != [] {
      PlayedSplits(h[..|h| - 1], m);
    }
  }

  /** A model has a `model_stats` entry exactly when it took a side in some game. */
  lemma {:induction false} AppearancesExactly(h: seq<GameRecord>, m: string)
    ensures m in Appearances(h) <==> Played(h, m) > 0
  {
    if h != [] {
      AppearancesExactly(h[..|h| - 1], m);
    }
  }

  lemma {:induction false} AppearancesDistinct(h: seq<GameRecord>)
    ensures Distinct(Appearances(h))
  {
    if h != [] {
      AppearancesDistinct(h[..|h| - 1]);
    }
  }

  /** A model that took no side has all-zero counters. */
  lemma AbsentHasNoCounts(h: seq<GameRecord>, m: string)
    ensures m !in Appearances(h) ==> Wins(h, m) == 0 && Losses(h, m) == 0 && Draws(h, m) == 0
  {
    AppearancesExactly(h, m);
    PlayedSplits(h, m);
  }

  /** How many entries of `keys` equal `m`. */
  function Occurrences(keys: seq<string>, m: string): nat {
    if keys == [] then 0 else Ind(keys[0] == m) + Occurrences(keys[1..], m)
  }

  lemma {:induction false} OccursOnce(keys: seq<string>, m: string)
    requires Distinct(keys) && m in keys
    ensures Occurrences(keys, m) == 1
  {
    if keys[0] == m {
      OccursNot(keys[1..], m);
    } else {
      OccursOnce(keys[1..], m);
    }
  }

  lemma {:induction false} OccursNot(keys: seq<string>, m: string)
    requires m !in keys
    ensures Occurrences(keys, m) == 0
  {
    if keys != [] {
      OccursNot(keys[1..], m);
    }
  }

  /** Adding a game adds, over `keys`, one for each side whose model `keys` holds. */
  lemma {:induction false} PlayedOverStep(keys: seq<string>, h: seq<GameRecord>)
    requires h != []
    ensures PlayedOver(keys, h) == PlayedOver(keys, h[..|h| - 1])
              + Occurrences(keys, h[|h| - 1].winner) + Occurrences(keys, h[|h| - 1].loser)
  {
    if keys != [] {
      PlayedOverStep(keys[1..], h);
    }
  }

  /** Over any distinct list holding every model that played, the games played add up to two per game. */
  lemma {:induction false} PlayedOverCovering(keys: seq<string>, h: seq<GameRecord>)
    requires Distinct(keys)
    requires forall m :: Played(h, m) > 0 ==> m in keys
    ensures PlayedOver(keys, h) == 2 * |h|
  {
    if h == [] {
      PlayedOverZero(keys);
    } else {
      var h0 := h[..|h| - 1];
      forall m | Played(h0, m) > 0
        ensures m in keys
      {
        assert Played(h, m) >= Played(h0, m);
      }
      PlayedOverCovering(keys, h0);
      PlayedOverStep(keys, h);
      var g := h[|h| - 1];
      assert Played(h, g.winner) > 0 && Played(h, g.loser) > 0;
      OccursOnce(keys, g.winner);
      OccursOnce(keys, g.loser);
    }
  }

  lemma {:induction false} PlayedOverZero(keys: seq<string>)
    ensures PlayedOver(keys, []) == 0
  {
    if keys != [] {
      PlayedOverZero(keys[1..]);
    }
  }

  /** The `games_played` of all `model_stats` entries add up to twice the number of games. */
  lemma PlayedTotal(h: seq<GameRecord>)
    ensures PlayedOver(Appearances(h), h) == 2 * |h|
  {
    AppearancesDistinct(h);
    forall m | Played(h, m) > 0
      ensures m in Appearances(h)
    {
      AppearancesExactly(h, m);
    }
    PlayedOverCovering(Appearances(h), h);
  }

  /** Each entry's `games_played` is its wins, losses and draws, and is the number of sides it took. */
  lemma StatsGamesPlayed(h: seq<GameRecord>, m: string)
    ensures StatsOf(h, m).gamesPlayed == StatsOf(h, m).wins + StatsOf(h, m).losses + StatsOf(h, m).draws
    ensures StatsOf(h, m).gamesPlayed == Played(h, m)
  {
    PlayedSplits(h, m);
  }

  function AverageRating(order: seq<string>, ratings: map<string, real>, init: real): real
    requires forall m :: m in order ==> m in ratings
  {
    if |ratings| > 0 && |order| > 0 then RatingSum(order, ratings) / |order| as real else init
  }

  lemma UpdateTwice(m: map<string, real>, w: string, l: string, a: real, b: real, x: real, y: real)
    ensures m[w := a][l := b][w := x][l := y] == m[w := x][l := y]
  {
  }

  /** `sum(1 for game in history if game["draw"])`. */
  method CountDraws(h: seq<GameRecord>) returns (draws: nat)
    ensures draws == DrawCount(h)
  {
    draws := 0;
    for i := 0 to |h|
      invariant draws == DrawCount(h[..i])
    {
      assert h[..i + 1][..i] == h[..i];
      if h[i].draw {
        draws := draws + 1;
      }
    }
    assert h[..|h|] == h;
  }

  /**
   * The counting loop of `get_statistics`: `keys` are the `model_stats`
   * keys in insertion order, `tally` their (wins, losses, draws).
   */
  method TallyHistory(h: seq<GameRecord>) returns (keys: seq<string>, tally: map<string, Tally>)
    ensures keys == Appearances(h)
    ensures forall m :: m in tally <==> m in keys
    ensures forall m :: m in tally ==> tally[m] == Counts(h, m)
  {
    keys, tally := [], map[];
    for i := 0 to |h|
      invariant Tallied(keys, tally, h[..i])
    {
      assert h[..i + 1] == h[..i] + [h[i]];
      keys, tally := TallyGame(keys, tally, h[i], h[..i]);
    }
    assert h[..|h|] == h;
  }

  /** `keys` and `tally` are the counters after the games `done`. */
  ghost predicate Tallied(keys: seq<string>, tally: map<string, Tally>, done: seq<GameRecord>) {
    keys == Appearances(done) &&
    (forall m :: m in tally <==> m in keys) &&
    (forall m :: m in tally ==> tally[m] == Counts(done, m))
  }

  /** One iteration of the counting loop: enter both sides, then count the game. */
  method TallyGame(keys: seq<string>, tally: map<string, Tally>, g: GameRecord, ghost done: seq<GameRecord>)
    returns (keys': seq<string>, tally': map<string, Tally>)
    requires Tallied(keys, tally, done)
    ensures Tallied(keys', tally', done + [g])
  {
    AbsentHasNoCounts(done, g.winner);
    AbsentHasNoCounts(done, g.loser);
    keys', tally' := EnterModel(keys, tally, g.winner, done);
    keys', tally' := EnterModel(keys', tally', g.loser, done);
    tally' := CountGame(tally', g);
    forall m | m in tally'
      ensures tally'[m] == Counts(done + [g], m)
    {
      CountsStep(done, g, m);
    }
    assert (done + [g])[..|done|] == done;
  }

  /** `if model not in model_stats`: a new entry with zero counters, appended to the key order. */
  method EnterModel(keys: seq<string>, tally: map<string, Tally>, m: string, ghost done: seq<GameRecord>)
    returns (keys': seq<string>, tally': map<string, Tally>)
    requires forall x :: x in tally <==> x in keys
    requires forall x :: x in tally ==> tally[x] == Counts(done, x)
    requires m !in keys ==> Counts(done, m) == Tally(0, 0, 0)
    ensures keys' == AddNew(keys, m) && m in keys'
    ensures forall x :: x in tally' <==> x in keys'
    ensures forall x :: x in tally' ==> tally'[x] == Counts(done, x)
  {
    keys', tally' := keys, tally;
    if m !in tally {
      tally' := tally[m := Tally(0, 0, 0)];
      keys' := keys + [m];
    }
  }

  /** The counters of one `model_stats` entry. */
  datatype Tally = Tally(wins: nat, losses: nat, draws: nat)

  /** The counters of `m` over `h`. */
  function Counts(h: seq<GameRecord>, m: string): Tally {
    Tally(Wins(h, m), Losses(h, m), Draws(h, m))
  }

  /** The counters `c` of `m` after game `g` is counted. */
  function Counted(c: Tally, g: GameRecord, m: string): Tally {
    Tally(c.wins + Ind(!g.draw && g.winner == m),
          c.losses + Ind(!g.draw && g.loser == m),
          c.draws + (if g.draw then Ind(g.winner == m) + Ind(g.loser == m) else 0))
  }

  /** The two counter increments of one game add `Counted` to every entry. */
  method CountGame(tally: map<string, Tally>, g: GameRecord) returns (tally': map<string, Tally>)
    requires g.winner in tally && g.loser in tally
    ensures forall m :: m in tally' <==> m in tally
    ensures forall m :: m in tally' ==> tally'[m] == Counted(tally[m], g, m)
  {
    tally' := tally;
    if g.draw {
      tally' := tally'[g.winner := tally'[g.winner].(draws := tally'[g.winner].draws + 1)];
      tally' := tally'[g.loser := tally'[g.loser].(draws := tally'[g.loser].draws + 1)];
    } else {
      tally' := tally'[g.winner := tally'[g.winner].(wins := tally'[g.winner].wins + 1)];
      tally' := tally'[g.loser := tally'[g.loser].(losses := tally'[g.loser].losses + 1)];
    }
  }

  /** How one more game changes a model's counters. */
  lemma CountsStep(h: seq<GameRecord>, g: GameRecord, m: string)
    ensures Counts(h + [g], m) == Counted(Counts(h, m), g, m)
  {
    assert (h + [g])[..|h|] == h;
  }

  /** The win-rate loop of `get_statistics`: one complete entry per key. */
  method StatsRows(h: seq<GameRecord>, keys: seq<string>, tally: map<string, Tally>)
    returns (rows: seq<(string, ModelStats)>)
    requires forall m :: m in keys ==> m in tally
    requires forall m :: m in tally ==> tally[m] == Counts(h, m)
    ensures |rows| == |keys|
    ensures forall j :: 0 <= j < |keys| ==> rows[j] == (keys[j], StatsOf(h, keys[j]))
  {
    rows := [];
    for k := 0 to |keys|
      invariant |rows| == k
      invariant forall j :: 0 <= j < k ==> rows[j] == (keys[j], StatsOf(h, keys[j]))
    {
      var t := tally[keys[k]];
      var total := t.wins + t.losses + t.draws;
      var rate := if total > 0 then t.wins as real / total as real else 0.0;
      rows := rows + [(keys[k], ModelStats(t.wins, t.losses, t.draws, rate, total))];
    }
  }

  // ---------------------------------------------------------------------
  // The rating system

  class EloRatingSystem {
    const kFactor: real
    const initialRating: real
    /** `expected_score`, see `IsExpectation`. */
    const expected: (real, real) -> real
    var ratings: map<string, real>
    /** The keys of `ratings` in insertion order, the order of `ratings.items()`. */
    var order: seq<string>
    var history: seq<GameRecord>
    /** What the last save wrote to the ratings file. */
    ghost var saved: Option<Snapshot>

    ghost predicate Valid()
      reads this
    {
      IsExpectation(expected) && Distinct(order) && (forall m :: m in ratings <==> m in order)
    }

    ghost function Current(): Snapshot
      reads this
    {
      Snapshot(ratings, order, history)
    }

    /**
     * A new system.  `stored` is what loading the ratings file produced:
     * `None` when there is no file or it could not be read, in which case
     * the table and the history start empty.
     */
    constructor(kFactor: real, initialRating: real, expected: (real, real) -> real, stored: Option<Snapshot>)
      requires IsExpectation(expected)
      requires stored.Some? ==> WellFormed(stored.value)
      ensures Valid()
      ensures this.kFactor == kFactor && this.initialRating == initialRating && this.expected == expected
      ensures stored.None? ==> ratings == map[] && order == [] && history == []
      ensures stored.Some? ==> Current() == stored.value
      ensures saved == stored
    {
      this.kFactor := kFactor;
      this.initialRating := initialRating;
      this.expected := expected;
      if stored.Some? {
        ratings := stored.value.ratings;
        order := stored.value.order;
        history := stored.value.history;
      } else {
        ratings := map[];
        order := [];
        history := [];
      }
      saved := stored;
    }

    /** `get_rating`: an unseen model is inserted at the initial rating; nothing else changes. */
    method GetRating(model: string) returns (r: real)
      requires Valid()
      modifies this
      ensures Valid()
      ensures r == RatingOf(old(ratings), model, initialRating)
      ensures ratings == old(ratings)[model := r]
      ensures order == Enrolled(old(order), old(ratings).Keys, model)
      ensures history == old(history) && saved == old(saved)
    {
      if model !in ratings {
        ratings := ratings[model := initialRating];
        order := order + [model];
      }
      r := ratings[model];
    }

    /** `expected_score`. */
    function ExpectedScore(a: real, b: real): (e: real)
      requires IsExpectation(expected)
      ensures 0.0 < e < 1.0
      ensures e + expected(b, a) == 1.0
    {
      expected(a, b)
    }

    /**
     * `update_ratings`: both models are enrolled, then rated anew from
     * their old ratings; one record is appended and the state is saved.
     * When `winner == loser` the loser's update is the one that stays.
     */
    method UpdateRatings(winner: string, loser: string, draw: bool)
      requires Valid()
      modifies this
      ensures Valid()
      ensures var wr := RatingOf(old(ratings), winner, initialRating);
              var lr := RatingOf(old(ratings), loser, initialRating);
              var r := Adjusted(wr, lr, draw, kFactor, expected);
              ratings == old(ratings)[winner := r.0][loser := r.1] &&
              history == old(history) + [GameRecord(winner, loser, draw, wr, lr, ratings[winner], ratings[loser])]
      ensures order == Enrolled(Enrolled(old(order), old(ratings).Keys, winner), old(ratings).Keys + {winner}, loser)
      ensures saved == Some(Current())
    {
      ghost var before := ratings;
      var wr := GetRating(winner);
      var lr := GetRating(loser);
      assert lr == RatingOf(before, loser, initialRating);
      ghost var enrolled := ratings;
      var r := Adjusted(wr, lr, draw, kFactor, expected);
      var nw, nl := r.0, r.1;
      ratings := ratings[winner := nw][loser := nl];
      UpdateTwice(before, winner, loser, wr, lr, nw, nl);
      assert ratings.Keys == enrolled.Keys;
      history := history + [GameRecord(winner, loser, draw, wr, lr, ratings[winner], ratings[loser])];
      saved := Some(Current());
    }

    /** `get_leaderboard`: the entries of the table, highest rating first. */
    function Leaderboard(): (board: seq<(string, real)>)
      reads this
      requires Valid()
      ensures SortedDesc(board, EntryRating)
      ensures multiset(board) == multiset(Entries(order, ratings))
    {
      SortDesc(Entries(order, ratings), EntryRating)
    }

    /** `get_matchup_prediction`: both models are enrolled, in that order. */
    method GetMatchupPrediction(a: string, b: string) returns (p: map<string, real>)
      requires Valid()
      modifies this
      ensures Valid()
      ensures p == Prediction(a, b, RatingOf(old(ratings), a, initialRating), RatingOf(old(ratings), b, initialRating), expected)
      ensures ratings == old(ratings)[a := RatingOf(old(ratings), a, initialRating)][b := RatingOf(old(ratings), b, initialRating)]
      ensures order == Enrolled(Enrolled(old(order), old(ratings).Keys, a), old(ratings).Keys + {a}, b)
      ensures history == old(history) && saved == old(saved)
    {
      var ra := GetRating(a);
      var rb := GetRating(b);
      var pa := ExpectedScore(ra, rb);
      var pb := ExpectedScore(rb, ra);
      p := map[a := pa][b := pb][RatingDifferenceKey := Abs(ra - rb)];
    }

    /**
     * `get_statistics`: the counts per model over the history, keyed in
     * order of first appearance, with the totals and the leaderboard.
     */
    method GetStatistics() returns (s: Statistics)
      requires Valid()
      ensures history == [] ==> s == NoGames(|ratings|, initialRating)
      ensures history != [] ==>
                s.Summary? && s.totalGames == |history| && s.totalDraws == DrawCount(history) &&
                s.models == |ratings| && s.averageRating == AverageRating(order, ratings, initialRating) &&
                s.leaderboard == Leaderboard()
      ensures history != [] ==>
                |s.modelStats| == |Appearances(history)| &&
                forall i :: 0 <= i < |s.modelStats| ==>
                  s.modelStats[i] == (Appearances(history)[i], StatsOf(history, Appearances(history)[i]))
    {
      if history == [] {
        return NoGames(|ratings|, initialRating);
      }
      var draws := CountDraws(history);
      var keys, tally := TallyHistory(history);
      var rows := StatsRows(history, keys, tally);
      s := Summary(|history|, draws, |ratings|, AverageRating(order, ratings, initialRating), rows, Leaderboard());
    }

    /** `reset_ratings`: an empty table and history, saved. */
    method ResetRatings()
      requires Valid()
      modifies this
      ensures Valid()
      ensures ratings == map[] && order == [] && history == []
      ensures saved == Some(Current())
    {
      ratings := map[];
      order := [];
      history := [];
      saved := Some(Current());
    }
  }

  /** Each entry of the leaderboard is a model of the table with its rating, and each model appears once. */
  lemma LeaderboardEntries(order: seq<string>, ratings: map<string, real>, board: seq<(string, real)>)
    requires Distinct(order) && forall m :: m in ratings <==> m in order
    requires board == SortDesc(Entries(order, ratings), EntryRating)
    ensures |board| == |ratings|
    ensures forall e :: e in board <==> e.0 in ratings && ratings[e.0] == e.1
  {
    var entries := Entries(order, ratings);
    assert multiset(board) == multiset(entries);
    assert |board| == |entries|;
    assert ratings.Keys == set m | m in order;
    DistinctCard(order);
    forall e
      ensures e in board <==> e.0 in ratings && ratings[e.0] == e.1
    {
      assert e in board <==> e in multiset(board);
      assert e in entries <==> e in multiset(entries);
      if e.0 in ratings && ratings[e.0] == e.1 {
        var i :| 0 <= i < |order| && order[i] == e.0;
        assert entries[i] == e;
      }
    }
  }

  lemma {:induction false} DistinctCard(s: seq<string>)
    requires Distinct(s)
    ensures |set m | m in s| == |s|
  {
    if s != [] {
      var t := s[..|s| - 1];
      DistinctCard(t);
      assert (set m | m in s) == (set m | m in t) + {s[|s| - 1]};
      assert s[|s| - 1] !in t;
    }
  }

  /** Models with equal ratings keep their insertion order on the leaderboard. */
  lemma LeaderboardTiesKeepOrder(order: seq<string>, ratings: map<string, real>, v: real)
    requires forall m :: m in order ==> m in ratings
    ensures WithKey(SortDesc(Entries(order, ratings), EntryRating), EntryRating, v)
         == WithKey(Entries(order, ratings), EntryRating, v)
  {
    SortStable(Entries(order, ratings), EntryRating, v);
  }

  // ---------------------------------------------------------------------
  // The round-robin scheduler

  /** Every index of `ps` is below `n`. */
  predicate PairsBelow(ps: seq<(nat, nat)>, n: nat) {
    forall k :: 0 <= k < |ps| ==> ps[k].0 < n && ps[k].1 < n
  }

  /** The pairs (i, j) for lo <= j < hi, in increasing j: an inner loop's output. */
  function PairSpan(i: nat, lo: nat, hi: nat): seq<(nat, nat)> {
    if hi <= lo then [] else PairSpan(i, lo, hi - 1) + [(i, hi - 1)]
  }

  lemma {:induction false} PairSpanShape(i: nat, lo: nat, hi: nat)
    ensures |PairSpan(i, lo, hi)| == if hi <= lo then 0 else hi - lo
    ensures forall k :: 0 <= k < |PairSpan(i, lo, hi)| ==> PairSpan(i, lo, hi)[k] == (i, lo + k)
  {
    if lo < hi {
      PairSpanShape(i, lo, hi - 1);
    }
  }

  /** Row `i` of the nested loops: the pairs (i, j) for j = i+1 .. n-1. */
  function PairRow(n: nat, i: nat): seq<(nat, nat)> {
    PairSpan(i, i + 1, n)
  }

  /** The pairs the outer loop has produced after `rows` iterations. */
  function PairRows(n: nat, rows: nat): (r: seq<(nat, nat)>)
    ensures PairsBelow(r, n)
  {
    if rows == 0 then []
    else
      PairSpanShape(rows - 1, rows, n);
      PairRows(n, rows - 1) + PairRow(n, rows - 1)
  }

  /** The index pairs of the round robin over `n` models, in generation order. */
  function Pairs(n: nat): seq<(nat, nat)> {
    PairRows(n, n)
  }

  predicate PairLess(p: (nat, nat), q: (nat, nat)) {
    p.0 < q.0 || (p.0 == q.0 && p.1 < q.1)
  }

  /** The models each index pair names. */
  function NamedPairs(models: seq<string>, ps: seq<(nat, nat)>): seq<(string, string)>
    requires PairsBelow(ps, |models|)
  {
    if ps == [] then []
    else NamedPairs(models, ps[..|ps| - 1]) + [(models[ps[|ps| - 1].0], models[ps[|ps| - 1].1])]
  }

  lemma {:induction false} PairRowsLength(n: nat, rows: nat)
    requires rows <= n
    ensures 2 * |PairRows(n, rows)| == rows * (2 * n - rows - 1)
  {
    if rows > 0 {
      PairRowsLength(n, rows - 1);
      var r := rows - 1;
      PairSpanShape(r, r + 1, n);
      RowsStep(n, rows, r);
    }
  }

  lemma RowsStep(n: int, rows: int, r: int)
    requires r == rows - 1
    ensures rows * (2 * n - rows - 1) == r * (2 * n - r - 1) + 2 * (n - r - 1)
  {
    calc {
      rows * (2 * n - rows - 1);
      (r + 1) * (2 * n - r - 2);
      r * (2 * n - r - 2) + (2 * n - r - 2);
      r * (2 * n - r - 1) - r + (2 * n - r - 2);
    }
  }

  /** There are n(n-1)/2 pairs, each with i < j < n ... */
  lemma PairsCount(n: nat)
    ensures |Pairs(n)| == n * (n - 1) / 2
    ensures forall k :: 0 <= k < |Pairs(n)| ==> Pairs(n)[k].0 < Pairs(n)[k].1 < n
  {
    PairRowsLength(n, n);
    PairRowsShape(n, n);
  }

  lemma {:induction false} PairRowsPrefix(n: nat, a: nat, b: nat)
    requires a <= b
    ensures PairRows(n, a) <= PairRows(n, b)
  {
    if a < b {
      PairRowsPrefix(n, a, b - 1);
    }
  }

  /** ... every pair i < j < n occurs ... */
  lemma PairsComplete(n: nat, i: nat, j: nat)
    requires i < j < n
    ensures (i, j) in Pairs(n)
  {
    PairRowsPrefix(n, i + 1, n);
    PairSpanShape(i, i + 1, n);
    assert PairRow(n, i)[j - i - 1] == (i, j);
    assert PairRows(n, i + 1)[|PairRows(n, i)| + (j - i - 1)] == (i, j);
  }

  lemma {:induction false} PairRowsShape(n: nat, rows: nat)
    ensures forall k :: 0 <= k < |PairRows(n, rows)| ==>
              PairRows(n, rows)[k].0 < rows && PairRows(n, rows)[k].0 < PairRows(n, rows)[k].1 < n
  {
    if rows > 0 {
      PairRowsShape(n, rows - 1);
      PairSpanShape(rows - 1, rows, n);
    }
  }

  lemma {:induction false} PairRowsIncreasing(n: nat, rows: nat)
    ensures forall k, l :: 0 <= k < l < |PairRows(n, rows)| ==> PairLess(PairRows(n, rows)[k], PairRows(n, rows)[l])
  {
    if rows > 0 {
      PairRowsIncreasing(n, rows - 1);
      PairRowsShape(n, rows - 1);
      var a, b := PairRows(n, rows - 1), PairRow(n, rows - 1);
      PairSpanShape(rows - 1, rows, n);
      assert PairRows(n, rows) == a + b;
      forall k, l | 0 <= k < l < |a + b|
        ensures PairLess((a + b)[k], (a + b)[l])
      {
        if k < |a| && l < |a| {
          assert (a + b)[k] == a[k] && (a + b)[l] == a[l];
        } else if k < |a| {
          assert (a + b)[k] == a[k] && (a + b)[l] == b[l - |a|];
        } else {
          assert (a + b)[k] == b[k - |a|] && (a + b)[l] == b[l - |a|];
        }
      }
    }
  }

  /** ... and the pairs come in strictly increasing (i, j) order, so none occurs twice. */
  lemma PairsIncreasing(n: nat)
    ensures forall k, l :: 0 <= k < l < |Pairs(n)| ==> PairLess(Pairs(n)[k], Pairs(n)[l])
  {
    PairRowsIncreasing(n, n);
  }

  lemma NamedPairsSnoc(models: seq<string>, ps: seq<(nat, nat)>, p: (nat, nat))
    requires PairsBelow(ps, |models|) && p.0 < |models| && p.1 < |models|
    ensures PairsBelow(ps + [p], |models|)
    ensures NamedPairs(models, ps + [p]) == NamedPairs(models, ps) + [(models[p.0], models[p.1])]
  {
    assert (ps + [p])[..|ps|] == ps;
  }

  /** `_generate_matchups`: the two nested loops over model indices. */
  method GenerateMatchups(models: seq<string>) returns (matchups: seq<(string, string)>)
    ensures matchups == NamedPairs(models, Pairs(|models|))
  {
    var n := |models|;
    matchups := [];
    for i := 0 to n
      invariant matchups == NamedPairs(models, PairRows(n, i))
    {
      matchups := AppendPairRow(models, i, PairRows(n, i), matchups);
      assert PairRows(n, i + 1) == PairRows(n, i) + PairRow(n, i);
    }
  }

  /** The inner loop: the pairs (i, j) for every j after i. */
  method AppendPairRow(models: seq<string>, i: nat, ghost before: seq<(nat, nat)>, matchups: seq<(string, string)>)
    returns (matchups': seq<(string, string)>)
    requires i < |models| && PairsBelow(before, |models|) && matchups == NamedPairs(models, before)
    ensures PairsBelow(before + PairRow(|models|, i), |models|)
    ensures matchups' == NamedPairs(models, before + PairRow(|models|, i))
  {
    var n := |models|;
    matchups' := matchups;
    ghost var done := before;
    for j := i + 1 to n
      invariant PairsBelow(done, n)
      invariant done == before + PairSpan(i, i + 1, j)
      invariant matchups' == NamedPairs(models, done)
    {
      NamedPairsSnoc(models, done, (i, j));
      matchups' := matchups' + [(models[i], models[j])];
      done := done + [(i, j)];
    }
  }

  /** `get_progress`, or the division by zero it raises on an empty schedule. */
  datatype Progress =
    | Progress(total: nat, completed: nat, remaining: int, percentage: real)
    | ZeroDivision

  /** `TournamentScheduler`: a cursor over the round-robin pairs. */
  class TournamentScheduler {
    const models: seq<string>
    const matchups: seq<(string, string)>
    var currentRound: nat

    ghost predicate Valid()
      reads this
    {
      matchups == NamedPairs(models, Pairs(|models|)) && currentRound <= |matchups|
    }

    constructor(models: seq<string>)
      ensures Valid() && this.models == models && currentRound == 0
    {
      var m := GenerateMatchups(models);
      this.models := models;
      matchups := m;
      currentRound := 0;
    }

    /** `get_next_matchup`: the pair under the cursor, advancing it, or `None` at the end. */
    method GetNextMatchup() returns (m: Option<(string, string)>)
      requires Valid()
      modifies this
      ensures Valid()
      ensures old(currentRound) < |matchups| ==>
                m == Some(matchups[old(currentRound)]) && currentRound == old(currentRound) + 1
      ensures old(currentRound) == |matchups| ==> m == None && currentRound == old(currentRound)
    {
      if currentRound < |matchups| {
        m := Some(matchups[currentRound]);
        currentRound := currentRound + 1;
      } else {
        m := None;
      }
    }

    /** `get_progress`: completed and remaining add up to the n(n-1)/2 pairs; no pairs means a division by zero. */
    function GetProgress(): (p: Progress)
      reads this
      requires Valid()
      ensures p.ZeroDivision? <==> |models| < 2
      ensures p.Progress? ==>
                p.total == |models| * (|models| - 1) / 2 && p.completed == currentRound &&
                p.completed + p.remaining == p.total && p.remaining >= 0 &&
                0.0 <= p.percentage <= 100.0
    {
      NamedPairsLength(models, Pairs(|models|));
      PairsCount(|models|);
      if |matchups| == 0 then ZeroDivision
      else
        Progress(|matchups|, currentRound, |matchups| - currentRound,
                 (currentRound as real / |matchups| as real) * 100.0)
    }

    /** `reset`: back to the first pair. */
    method Reset()
      requires Valid()
      modifies this
      ensures Valid() && currentRound == 0
    {
      currentRound := 0;
    }
  }

  lemma {:induction false} NamedPairsLength(models: seq<string>, ps: seq<(nat, nat)>)
    requires PairsBelow(ps, |models|)
    ensures |NamedPairs(models, ps)| == |ps|
    ensures forall k :: 0 <= k < |ps| ==> NamedPairs(models, ps)[k] == (models[ps[k].0], models[ps[k].1])
  {
    if ps != [] {
      NamedPairsLength(models, ps[..|ps| - 1]);
    }
  }
}
