/**
 * The orchestration rules of src/evaluation.py (`CatanLLMEvaluator`):
 * mapping the winning colour to models and updating Elo, the results and
 * error results of `run_game`, the turn loop of `_play_game_sync` against
 * an abstract game engine, the first-mover alternation of
 * `run_tournament`, `_format_legal_actions` and `_actions_match`, the
 * cube-to-offset hex table and the road count of the board view.
 */
module Evaluation {
  import opened Wrappers
  import opened Text
  import opened Json
  import opened Resolver
  import Elo
  import Tournament

  // ---------------------------------------------------------------------
  // Colours and the winner

  /** The engine's player colours. */
  datatype Color = Red | Blue | Orange | White

  /** `color.value`. */
  function ColorValue(c: Color): string {
    match c
    case Red => "RED"
    case Blue => "BLUE"
    case Orange => "ORANGE"
    case White => "WHITE"
  }

  /** Player 1 plays RED and player 2 BLUE. */
  function PlayerModel(c: Color, model1: string, model2: string): string {
    if c == Red then model1 else model2
  }

  /**
   * The winner and loser models for the winning colour: RED names
   * (model1, model2), BLUE names (model2, model1), anything else neither.
   */
  function WinnerModels(winner: Option<Color>, model1: string, model2: string): (r: (Option<string>, Option<string>))
    ensures r.0.Some? <==> winner == Some(Red) || winner == Some(Blue)
    ensures r.0.Some? <==> r.1.Some?
    ensures r.0.Some? ==> {r.0.value, r.1.value} == {model1, model2}
    ensures model1 != model2 && r.0.Some? ==> (r.0 == Some(model1) <==> winner == Some(Red))
  {
    if winner == Some(Red) then (Some(model1), Some(model2))
    else if winner == Some(Blue) then (Some(model2), Some(model1))
    else (None, None)
  }

  /** Python truthiness of an optional name. */
  predicate Truthy(o: Option<string>) {
    o.Some? && o.value != ""
  }

  /** `if winner_model and loser_model`: Elo is updated for a decided game between named models. */
  predicate UpdatesElo(winner: Option<Color>, model1: string, model2: string) {
    var (w, l) := WinnerModels(winner, model1, model2);
    Truthy(w) && Truthy(l)
  }

  lemma UpdatesEloExactly(winner: Option<Color>, model1: string, model2: string)
    ensures UpdatesElo(winner, model1, model2) <==>
      (winner == Some(Red) || winner == Some(Blue)) && model1 != "" && model2 != ""
  {
  }

  // ---------------------------------------------------------------------
  // The turn loop

  /** The turn limit `MAX_TURNS_PER_GAME` (its default, src/config.py). */
  const MaxTurnsPerGame: int := 200

  const AutoMove: string := "AUTO MOVE"
  const DecideReasoning: string := "Random player - no reasoning"

  /** What executing an action does: the next state, or the exception it raises. */
  datatype Exec<S> = Executed(next: S) | Failed(message: string)

  /**
   * The engine as the loop sees it: the winning colour, the turn counter,
   * the colour to move, the playable actions and `execute`.
   */
  datatype Engine<!S> = Engine(
    winningColor: S -> Option<Color>,
    numTurns: S -> int,
    currentColor: S -> Color,
    playable: S -> seq<EngineAction>,
    execute: (S, EngineAction) -> Exec<S>)

  /** One entry of `game_log["actions"]` (timestamp and state snapshot left out). */
  datatype ActionRecord = ActionRecord(turn: int, player: string, action: string, reasoning: string)

  /** Why the loop ended. */
  datatype Stop = Won | TurnLimit | NoActions | Error(message: string) | OutOfFuel

  /**
   * The action taken in a state with at least one playable action and its
   * reasoning: the only action as an "AUTO MOVE", else the player's
   * `decide`, which runs the reply resolver on the model's reply.
   */
  function Choice<S>(eng: Engine<S>, s: S, model: string, reply: string, parse: string -> Option<Json>): (r: (EngineAction, string))
    requires |eng.playable(s)| > 0
    ensures r.0 in eng.playable(s)
    ensures r.1 == AutoMove <==> |eng.playable(s)| == 1
  {
    var playable := eng.playable(s);
    if |playable| == 1 then (playable[0], AutoMove)
    else (playable[GetMove(model, reply, ConvertedAll(playable), parse).actionIndex], DecideReasoning)
  }

  /** The run of the loop: final state, action log, actions, states acted in, and why it stopped. */
  datatype Run<S> = Run(final: S, log: seq<ActionRecord>, actions: seq<EngineAction>, visited: seq<S>, stop: Stop)

  /** The players' models and replies, and the JSON oracle. */
  datatype Players<!S> = Players(model1: string, model2: string, reply: S -> string, parse: string -> Option<Json>)

  function ChoiceIn<S>(eng: Engine<S>, s: S, p: Players<S>): (EngineAction, string)
    requires |eng.playable(s)| > 0
  {
    Choice(eng, s, PlayerModel(eng.currentColor(s), p.model1, p.model2), p.reply(s), p.parse)
  }

  /**
   * The loop from state `s` with at most `fuel` more actions: it stops on a
   * winner, past the turn limit, without playable actions, when `execute`
   * raises, or when the fuel is spent.
   */
  function PlayFrom<S>(eng: Engine<S>, s: S, p: Players<S>, fuel: nat): (r: Run<S>)
    ensures |r.actions| <= fuel
    ensures r.stop == OutOfFuel ==> |r.actions| == fuel
    decreases fuel
  {
    if eng.winningColor(s).Some? then Run(s, [], [], [], Won)
    else if eng.numTurns(s) > MaxTurnsPerGame then Run(s, [], [], [], TurnLimit)
    else if |eng.playable(s)| == 0 then Run(s, [], [], [], NoActions)
    else if fuel == 0 then Run(s, [], [], [], OutOfFuel)
    else
      var (a, why) := ChoiceIn(eng, s, p);
      match eng.execute(s, a)
      case Failed(msg) => Run(s, [], [], [], Error(msg))
      case Executed(next) =>
        var rest := PlayFrom(eng, next, p, fuel - 1);
        var rec := ActionRecord(eng.numTurns(s), ColorValue(eng.currentColor(s)), a.repr, why);
        Run(rest.final, [rec] + rest.log, [a] + rest.actions, [s] + rest.visited, rest.stop)
  }

  /**
   * The `k`-th logged record belongs to the `k`-th executed action: the
   * action was playable in the state it was taken in, it and the record's
   * reasoning are the choice made there (the only action as an "AUTO
   * MOVE", else the player's `decide`), the record names that state's turn
   * and colour and the action's text, and executing it led to the next
   * state; the state had no winner and was not past the turn limit.
   */
  ghost predicate StepLogged<S>(eng: Engine<S>, p: Players<S>, r: Run<S>, k: nat)
    requires k < |r.log| == |r.actions| == |r.visited|
  {
    var v := r.visited[k];
    eng.winningColor(v).None? && eng.numTurns(v) <= MaxTurnsPerGame &&
    r.actions[k] in eng.playable(v) &&
    (r.actions[k], r.log[k].reasoning) == ChoiceIn(eng, v, p) &&
    r.log[k] == ActionRecord(eng.numTurns(v), ColorValue(eng.currentColor(v)), r.actions[k].repr, r.log[k].reasoning) &&
    (r.log[k].reasoning == AutoMove <==> |eng.playable(v)| == 1) &&
    eng.execute(v, r.actions[k]) == Executed(if k + 1 < |r.visited| then r.visited[k + 1] else r.final)
  }

  /**
   * A run from `s` with at most `fuel` actions whose records, actions and
   * visited states line up, each step as `StepLogged` says.
   */
  ghost predicate Traced<S>(eng: Engine<S>, p: Players<S>, r: Run<S>, s: S, fuel: nat) {
    |r.log| == |r.actions| == |r.visited| <= fuel &&
    (r.visited != [] ==> r.visited[0] == s) &&
    (r.visited == [] ==> r.final == s) &&
    forall k :: 0 <= k < |r.visited| ==> StepLogged(eng, p, r, k)
  }

  /** One record per executed action, each as `StepLogged` says; at most `fuel` of them. */
  lemma {:induction false} PlayTrace<S>(eng: Engine<S>, s: S, p: Players<S>, fuel: nat)
    ensures Traced(eng, p, PlayFrom(eng, s, p, fuel), s, fuel)
  {
    if eng.winningColor(s).None? && eng.numTurns(s) <= MaxTurnsPerGame && |eng.playable(s)| > 0 && fuel > 0 {
      var (a, why) := ChoiceIn(eng, s, p);
      if eng.execute(s, a).Executed? {
        var next := eng.execute(s, a).next;
        PlayTrace(eng, next, p, fuel - 1);
        PlayFromStep(eng, s, p, fuel, a, why, next);
        var rest := PlayFrom(eng, next, p, fuel - 1);
        var rec := ActionRecord(eng.numTurns(s), ColorValue(eng.currentColor(s)), a.repr, why);
        TracedCons(eng, p, s, fuel, rest, next, a, rec);
      }
    }
  }

  /** A logged first step in front of a traced rest of the run gives a traced run. */
  lemma TracedCons<S>(eng: Engine<S>, p: Players<S>, s: S, fuel: nat, rest: Run<S>, next: S, a: EngineAction, rec: ActionRecord)
    requires fuel > 0 && Traced(eng, p, rest, next, fuel - 1)
    requires eng.winningColor(s).None? && eng.numTurns(s) <= MaxTurnsPerGame && a in eng.playable(s)
    requires (a, rec.reasoning) == ChoiceIn(eng, s, p)
    requires rec == ActionRecord(eng.numTurns(s), ColorValue(eng.currentColor(s)), a.repr, rec.reasoning)
    requires rec.reasoning == AutoMove <==> |eng.playable(s)| == 1
    requires eng.execute(s, a) == Executed(next)
    ensures Traced(eng, p, Run(rest.final, [rec] + rest.log, [a] + rest.actions, [s] + rest.visited, rest.stop), s, fuel)
  {
    var r := Run(rest.final, [rec] + rest.log, [a] + rest.actions, [s] + rest.visited, rest.stop);
    forall k | 0 <= k < |r.visited|
      ensures StepLogged(eng, p, r, k)
    {
      if k == 0 {
        assert rest.visited != [] ==> rest.visited[0] == next;
      } else {
        StepLoggedShift(eng, p, r, rest, rec, a, s, k);
      }
    }
  }

  /** A step of the rest of the run is a step of the run one position later. */
  lemma StepLoggedShift<S>(eng: Engine<S>, p: Players<S>, r: Run<S>, rest: Run<S>, rec: ActionRecord, a: EngineAction, s: S, k: nat)
    requires |rest.log| == |rest.actions| == |rest.visited|
    requires r == Run(rest.final, [rec] + rest.log, [a] + rest.actions, [s] + rest.visited, rest.stop)
    requires 0 < k <= |rest.visited| && StepLogged(eng, p, rest, k - 1)
    ensures StepLogged(eng, p, r, k)
  {
    assert r.visited[k] == rest.visited[k - 1] && r.actions[k] == rest.actions[k - 1] && r.log[k] == rest.log[k - 1];
    assert k + 1 < |r.visited| ==> r.visited[k + 1] == rest.visited[k];
  }

  /** Why the loop stopped holds of the state it stopped in. */
  lemma {:induction false} PlayStops<S>(eng: Engine<S>, s: S, p: Players<S>, fuel: nat)
    ensures var r := PlayFrom(eng, s, p, fuel);
      (r.stop == Won <==> eng.winningColor(r.final).Some?) &&
      (r.stop == TurnLimit ==> eng.numTurns(r.final) > MaxTurnsPerGame) &&
      (r.stop == NoActions ==> eng.numTurns(r.final) <= MaxTurnsPerGame && eng.playable(r.final) == []) &&
      (r.stop.Error? ==>
        |eng.playable(r.final)| > 0 && eng.execute(r.final, ChoiceIn(eng, r.final, p).0) == Failed(r.stop.message))
  {
    if eng.winningColor(s).None? && eng.numTurns(s) <= MaxTurnsPerGame && |eng.playable(s)| > 0 && fuel > 0 {
      var (a, why) := ChoiceIn(eng, s, p);
      if eng.execute(s, a).Executed? {
        var next := eng.execute(s, a).next;
        PlayStops(eng, next, p, fuel - 1);
        PlayFromStep(eng, s, p, fuel, a, why, next);
      }
    }
  }

  /**
   * The run from `s0` is the part already logged followed by the run from
   * `s` with the fuel `f` that is left.
   */
  ghost predicate Resumes<S>(eng: Engine<S>, s0: S, p: Players<S>, fuel: nat, s: S, f: nat,
                             log: seq<ActionRecord>, actions: seq<EngineAction>, visited: seq<S>)
  {
    var r := PlayFrom(eng, s, p, f);
    PlayFrom(eng, s0, p, fuel) == Run(r.final, log + r.log, actions + r.actions, visited + r.visited, r.stop)
  }

  /** One executed action puts its record, the action and the state in front of the rest of the run. */
  lemma PlayFromStep<S>(eng: Engine<S>, s: S, p: Players<S>, fuel: nat, action: EngineAction, reasoning: string, next: S)
    requires eng.winningColor(s).None? && eng.numTurns(s) <= MaxTurnsPerGame && |eng.playable(s)| > 0 && fuel > 0
    requires (action, reasoning) == ChoiceIn(eng, s, p) && eng.execute(s, action) == Executed(next)
    ensures var rest := PlayFrom(eng, next, p, fuel - 1);
      PlayFrom(eng, s, p, fuel) ==
        Run(rest.final, [ActionRecord(eng.numTurns(s), ColorValue(eng.currentColor(s)), action.repr, reasoning)] + rest.log,
            [action] + rest.actions, [s] + rest.visited, rest.stop)
  {
  }

  /** Executing the chosen action moves its record, the action and the state into the logged part. */
  lemma Advance<S>(eng: Engine<S>, s0: S, p: Players<S>, fuel: nat, s: S, f: nat,
                   log: seq<ActionRecord>, actions: seq<EngineAction>, visited: seq<S>,
                   action: EngineAction, reasoning: string, next: S)
    requires Resumes(eng, s0, p, fuel, s, f, log, actions, visited)
    requires eng.winningColor(s).None? && eng.numTurns(s) <= MaxTurnsPerGame && |eng.playable(s)| > 0 && f > 0
    requires (action, reasoning) == ChoiceIn(eng, s, p) && eng.execute(s, action) == Executed(next)
    ensures var record := ActionRecord(eng.numTurns(s), ColorValue(eng.currentColor(s)), action.repr, reasoning);
      Resumes(eng, s0, p, fuel, next, f - 1, log + [record], actions + [action], visited + [s])
  {
    var record := ActionRecord(eng.numTurns(s), ColorValue(eng.currentColor(s)), action.repr, reasoning);
    var r := PlayFrom(eng, next, p, f - 1);
    PlayFromStep(eng, s, p, f, action, reasoning, next);
    assert log + ([record] + r.log) == (log + [record]) + r.log;
    assert actions + ([action] + r.actions) == (actions + [action]) + r.actions;
    assert visited + ([s] + r.visited) == (visited + [s]) + r.visited;
  }

  /**
   * One decision of the loop: the only playable action as an "AUTO MOVE",
   * otherwise the player's `decide`.
   */
  method ChooseAction<S>(eng: Engine<S>, s: S, p: Players<S>) returns (action: EngineAction, reasoning: string)
    requires |eng.playable(s)| > 0
    ensures (action, reasoning) == ChoiceIn(eng, s, p)
  {
    var playable := eng.playable(s);
    if |playable| == 1 {
      action, reasoning := playable[0], AutoMove;
    } else {
      var color := eng.currentColor(s);
      var chosen := DecideAsync(PlayerModel(color, p.model1, p.model2), p.reply(s), playable, p.parse);
      action, reasoning := chosen.value, DecideReasoning;
    }
  }

  /**
   * `_play_game_sync`: the `while` loop, with at most `fuel` actions.  It
   * returns the winning colour (or the exception `execute` raised), the
   * final state and the action log.
   */
  method PlayGameSync<S>(eng: Engine<S>, s0: S, p: Players<S>, fuel: nat)
    returns (winner: Option<Color>, s: S, log: seq<ActionRecord>, stop: Stop)
    ensures var r := PlayFrom(eng, s0, p, fuel);
      s == r.final && log == r.log && stop == r.stop && winner == eng.winningColor(s)
  {
    s, log, stop := s0, [], Won;
    var f := fuel;
    ghost var actions: seq<EngineAction> := [];
    ghost var visited: seq<S> := [];
    while eng.winningColor(s).None?
      invariant Resumes(eng, s0, p, fuel, s, f, log, actions, visited)
      decreases f
    {
      if eng.numTurns(s) > MaxTurnsPerGame {
        stop := TurnLimit;
        break;
      }
      var playable := eng.playable(s);
      if |playable| == 0 {
        stop := NoActions;
        break;
      }
      if f == 0 {
        stop := OutOfFuel;
        break;
      }
      var color := eng.currentColor(s);
      var action, reasoning := ChooseAction(eng, s, p);
      var record := ActionRecord(eng.numTurns(s), ColorValue(color), action.repr, reasoning);
      match eng.execute(s, action)
      case Failed(msg) =>
        stop := Error(msg);
        break;
      case Executed(next) =>
        Advance(eng, s0, p, fuel, s, f, log, actions, visited, action, reasoning, next);
        log, actions, visited := log + [record], actions + [action], visited + [s];
        s, f := next, f - 1;
    }
    assert log + [] == log;
    winner := eng.winningColor(s);
  }

  // ---------------------------------------------------------------------
  // run_game

  /** `Config.DEFAULT_MODELS`. */
  const DefaultModels: seq<string> := [
    "openai/gpt-3.5-turbo",
    "anthropic/claude-3-haiku",
    "meta-llama/llama-3.1-8b-instruct",
    "mistralai/mistral-7b-instruct"
  ]

  /** The dict `run_game` returns; `error` is present only on the error paths. */
  datatype GameOutcome = GameOutcome(
    winner: Option<string>, loser: Option<string>, totalTurns: Option<int>, error: Option<string>, gameId: string)

  /** The fields of the outcome that `run_chunk` records. */
  function AsGameResult(o: GameOutcome): Tournament.GameResult {
    Tournament.GameResult(o.winner, o.loser, o.totalTurns, Some(o.gameId))
  }

  /**
   * The outcome of `run_game` for a run of the loop: an exception while
   * playing, or after the game while saving and reporting (`postGame`),
   * gives no winner and no loser with the error; otherwise the mapped
   * winner and loser and the turn count.
   */
  function RunGameOutcome<S>(eng: Engine<S>, model1: string, model2: string, r: Run<S>, gameId: string,
                             postGame: Option<string>): (o: GameOutcome)
    ensures o.error.Some? <==> r.stop.Error? || postGame.Some?
    ensures o.error.Some? ==> o.winner.None? && o.loser.None? && o.totalTurns.None?
    ensures o.gameId == gameId
  {
    if r.stop.Error? then GameOutcome(None, None, None, Some(r.stop.message), gameId)
    else if postGame.Some? then GameOutcome(None, None, None, postGame, gameId)
    else
      var (w, l) := WinnerModels(eng.winningColor(r.final), model1, model2);
      GameOutcome(w, l, Some(eng.numTurns(r.final)), None, gameId)
  }

  /** A game that names a winner names one of its two models, and the other as loser. */
  lemma OutcomeNamesPlayers<S>(eng: Engine<S>, model1: string, model2: string, r: Run<S>, gameId: string,
                               postGame: Option<string>)
    ensures var o := RunGameOutcome(eng, model1, model2, r, gameId, postGame);
      o.winner.Some? ==> o.loser.Some? && {o.winner.value, o.loser.value} == {model1, model2}
  {
  }

  /**
   * The record `run_chunk` writes for a game `run_game` played between two
   * named models is consistent: a winner, when there is one, is one of the
   * record's two models, so the standings tally never fails on such records.
   */
  lemma ChunkRecordConsistent<S>(u: Tournament.Unit, eng: Engine<S>, r: Run<S>, gameId: string, postGame: Option<string>)
    requires u.model1 != "" && u.model2 != ""
    ensures Tournament.Consistent(
      Tournament.RecordOf(u, AsGameResult(RunGameOutcome(eng, u.model1, u.model2, r, gameId, postGame))))
  {
    OutcomeNamesPlayers(eng, u.model1, u.model2, r, gameId, postGame);
    var o := RunGameOutcome(eng, u.model1, u.model2, r, gameId, postGame);
    if o.winner.Some? {
      assert o.winner.value in {u.model1, u.model2};
    }
  }

  /** `CatanLLMEvaluator`. */
  class Evaluator {
    const models: seq<string>
    const elo: Elo.EloRatingSystem

    /**
     * `__init__`: an empty model list falls back to the default models; a
     * new rating system at K = 32 and 1500 from the ratings file's content.
     */
    constructor(models: seq<string>, expected: (real, real) -> real, stored: Option<Elo.Snapshot>)
      requires Elo.IsExpectation(expected)
      requires stored.Some? ==> Elo.WellFormed(stored.value)
      ensures this.models == (if models == [] then DefaultModels else models)
      ensures fresh(elo) && elo.Valid()
      ensures elo.kFactor == Elo.EloKFactor && elo.initialRating == Elo.InitialElo && elo.expected == expected
      ensures stored.Some? ==> elo.Current() == stored.value
      ensures stored.None? ==> elo.ratings == map[] && elo.order == [] && elo.history == []
    {
      this.models := if models == [] then DefaultModels else models;
      elo := new Elo.EloRatingSystem(Elo.EloKFactor, Elo.InitialElo, expected, stored);
    }

    /**
     * `run_game`: play the loop, map the winning colour, update Elo when
     * both winner and loser are named, and return the outcome.  An
     * exception while playing never touches Elo; one after the update
     * (`postGame`) leaves the update in place and reports the error.
     */
    method RunGame<S>(model1: string, model2: string, eng: Engine<S>, s0: S, reply: S -> string,
                      parse: string -> Option<Json>, fuel: nat, gameId: string, postGame: Option<string>)
      returns (outcome: GameOutcome)
      requires elo.Valid()
      modifies elo
      ensures elo.Valid()
      ensures var r := PlayFrom(eng, s0, Players(model1, model2, reply, parse), fuel);
        outcome == RunGameOutcome(eng, model1, model2, r, gameId, postGame)
      ensures var r := PlayFrom(eng, s0, Players(model1, model2, reply, parse), fuel);
        var (w, l) := WinnerModels(eng.winningColor(r.final), model1, model2);
        if r.stop != Won || !UpdatesElo(eng.winningColor(r.final), model1, model2) then
          elo.ratings == old(elo.ratings) && elo.order == old(elo.order) && elo.history == old(elo.history) &&
          elo.saved == old(elo.saved)
        else
          var wr := Elo.RatingOf(old(elo.ratings), w.value, elo.initialRating);
          var lr := Elo.RatingOf(old(elo.ratings), l.value, elo.initialRating);
          var a := Elo.Adjusted(wr, lr, false, elo.kFactor, elo.expected);
          elo.ratings == old(elo.ratings)[w.value := a.0][l.value := a.1] &&
          elo.history == old(elo.history) + [Elo.GameRecord(w.value, l.value, false, wr, lr, elo.ratings[w.value], elo.ratings[l.value])] &&
          elo.order == Elo.Enrolled(Elo.Enrolled(old(elo.order), old(elo.ratings).Keys, w.value), old(elo.ratings).Keys + {w.value}, l.value) &&
          elo.saved == Some(elo.Current())
    {
      var p := Players(model1, model2, reply, parse);
      var winnerColor, s, log, stop := PlayGameSync(eng, s0, p, fuel);
      PlayStops(eng, s0, p, fuel);
      if stop.Error? {
        return GameOutcome(None, None, None, Some(stop.message), gameId);
      }
      var winnerModel, loserModel := WinnerModels(winnerColor, model1, model2).0, WinnerModels(winnerColor, model1, model2).1;
      if Truthy(winnerModel) && Truthy(loserModel) {
        elo.UpdateRatings(winnerModel.value, loserModel.value, false);
      }
      if postGame.Some? {
        return GameOutcome(None, None, None, postGame, gameId);
      }
      outcome := GameOutcome(winnerModel, loserModel, Some(eng.numTurns(s)), None, gameId);
    }

    /**
     * `run_tournament`, as the sequence of `run_game(first, second)` calls
     * it makes: for each scheduled pair, `games_per_matchup` games with the
     * first mover alternating, starting with the pair's first model.
     */
    method RunTournament(gamesPerMatchup: int) returns (calls: seq<(string, string)>)
      ensures calls == TournamentCalls(Elo.NamedPairs(models, Elo.Pairs(|models|)), Tournament.RangeLength(gamesPerMatchup))
    {
      var g := Tournament.RangeLength(gamesPerMatchup);
      var scheduler := new Elo.TournamentScheduler(models);
      calls := [];
      while true
        invariant scheduler.Valid() && scheduler.models == models
        invariant calls == TournamentCalls(scheduler.matchups[..scheduler.currentRound], g)
        decreases |scheduler.matchups| - scheduler.currentRound
      {
        ghost var done := scheduler.matchups[..scheduler.currentRound];
        var matchup := scheduler.GetNextMatchup();
        if matchup.None? {
          assert done == scheduler.matchups;
          break;
        }
        var (model1, model2) := matchup.value;
        assert scheduler.matchups[..scheduler.currentRound] == done + [(model1, model2)];
        for gameNum := 0 to g
          invariant calls == TournamentCalls(done, g) + Alternating((model1, model2), gameNum)
        {
          if gameNum % 2 == 0 {
            calls := calls + [(model1, model2)];
          } else {
            calls := calls + [(model2, model1)];
          }
        }
      }
    }
  }

  /** The games of one pair: even game numbers as given, odd ones swapped. */
  function Alternating(pair: (string, string), games: nat): seq<(string, string)> {
    if games == 0 then []
    else Alternating(pair, games - 1) + [if (games - 1) % 2 == 0 then pair else (pair.1, pair.0)]
  }

  /** The games of all pairs, pair after pair. */
  function TournamentCalls(pairs: seq<(string, string)>, games: nat): seq<(string, string)> {
    if pairs == [] then []
    else TournamentCalls(pairs[..|pairs| - 1], games) + Alternating(pairs[|pairs| - 1], games)
  }

  lemma {:induction false} AlternatingShape(pair: (string, string), games: nat)
    ensures |Alternating(pair, games)| == games
    ensures forall k :: 0 <= k < games ==>
      Alternating(pair, games)[k] == if k % 2 == 0 then pair else (pair.1, pair.0)
  {
    if games > 0 {
      AlternatingShape(pair, games - 1);
    }
  }

  /** Where the games of pair number `p` start: p * games, by repeated addition. */
  function Offset(p: nat, games: nat): nat {
    if p == 0 then 0 else Offset(p - 1, games) + games
  }

  lemma {:induction false} OffsetIsProduct(p: nat, games: nat)
    ensures Offset(p, games) == p * games
  {
    if p > 0 {
      OffsetIsProduct(p - 1, games);
      assert (p - 1) * games + games == p * games;
    }
  }

  lemma {:induction false} OffsetMonotone(p: nat, q: nat, games: nat)
    requires p <= q
    ensures Offset(p, games) <= Offset(q, games)
  {
    if p < q {
      OffsetMonotone(p, q - 1, games);
    }
  }

  /** The calls of pair number `p` are the block that starts at its offset. */
  predicate PairBlock(calls: seq<(string, string)>, pairs: seq<(string, string)>, games: nat, p: nat)
    requires p < |pairs|
  {
    Offset(p + 1, games) <= |calls| && calls[Offset(p, games)..Offset(p + 1, games)] == Alternating(pairs[p], games)
  }

  /**
   * `run_tournament` plays |pairs| * g games, pair after pair: the games of
   * pair p are the calls from p * g up to (p + 1) * g, alternating as above.
   */
  lemma {:induction false} TournamentCallsShape(pairs: seq<(string, string)>, games: nat)
    ensures |TournamentCalls(pairs, games)| == Offset(|pairs|, games)
    ensures forall p :: 0 <= p < |pairs| ==> PairBlock(TournamentCalls(pairs, games), pairs, games, p)
  {
    if pairs != [] {
      var n := |pairs| - 1;
      var prev := pairs[..n];
      TournamentCallsShape(prev, games);
      AlternatingShape(pairs[n], games);
      var before := TournamentCalls(prev, games);
      var calls := TournamentCalls(pairs, games);
      assert calls == before + Alternating(pairs[n], games);
      forall p | 0 <= p < |pairs|
        ensures PairBlock(calls, pairs, games, p)
      {
        var lo, hi := Offset(p, games), Offset(p + 1, games);
        OffsetMonotone(p + 1, |pairs|, games);
        if p < n {
          assert PairBlock(before, prev, games, p);
          OffsetMonotone(p + 1, n, games);
          assert prev[p] == pairs[p];
          assert calls[lo..hi] == before[lo..hi];
        } else {
          assert calls[lo..hi] == calls[|before|..];
        }
      }
    }
  }

  /** Game k of pair number p is call p * g + k; the pair's first model moves first exactly when k is even. */
  lemma TournamentCallAt(pairs: seq<(string, string)>, games: nat, p: nat, k: nat)
    requires p < |pairs| && k < games
    ensures |TournamentCalls(pairs, games)| == |pairs| * games
    ensures p * games + k < |TournamentCalls(pairs, games)|
    ensures TournamentCalls(pairs, games)[p * games + k] == if k % 2 == 0 then pairs[p] else (pairs[p].1, pairs[p].0)
  {
    TournamentCallsShape(pairs, games);
    assert PairBlock(TournamentCalls(pairs, games), pairs, games, p);
    AlternatingShape(pairs[p], games);
    OffsetIsProduct(p, games);
    OffsetIsProduct(|pairs|, games);
    var calls := TournamentCalls(pairs, games);
    var lo, hi := Offset(p, games), Offset(p + 1, games);
    assert calls[lo..hi][k] == calls[lo + k];
  }

  /** How often `c` occurs in `cs`. */
  function CountOf(cs: seq<(string, string)>, c: (string, string)): nat {
    if cs == [] then 0 else CountOf(cs[..|cs| - 1], c) + (if cs[|cs| - 1] == c then 1 else 0)
  }

  /**
   * The first mover alternates: of g games between two different models
   * the pair's first model moves first in (g + 1) / 2 and the second in g / 2.
   */
  lemma {:induction false} FirstMoverBalance(pair: (string, string), games: nat)
    requires pair.0 != pair.1
    ensures CountOf(Alternating(pair, games), pair) == (games + 1) / 2
    ensures CountOf(Alternating(pair, games), (pair.1, pair.0)) == games / 2
  {
    if games > 0 {
      FirstMoverBalance(pair, games - 1);
      var a := Alternating(pair, games);
      assert a[..|a| - 1] == Alternating(pair, games - 1);
    }
  }

  // ---------------------------------------------------------------------
  // Legal actions for the model, and matching its choice back

  /**
   * What `_format_legal_actions` and `_actions_match` read of an engine
   * action: `str(action)`, `action_type.name`, and the `node_id`, `edge`
   * and `coordinate` attributes (None when the action has no such
   * attribute).
   */
  datatype ActionAttrs = ActionAttrs(
    repr: string, actionType: Option<string>, nodeId: Option<Json>, edge: Option<Json>, coordinate: Option<Json>)

  /** `fields[key] = v` when the attribute is present. */
  function WithOptional(fields: map<string, Json>, key: string, v: Option<Json>): map<string, Json> {
    if v.Some? then fields[key := v.value] else fields
  }

  /**
   * One entry of `_format_legal_actions`: the type name (or `str(action)`
   * when there is no type), `str(action)` as "params", and "node", "edge"
   * and "coordinate" exactly for the attributes the action has.
   */
  function FormatLegalAction(a: ActionAttrs): (d: Json)
    ensures d.JObj? && "type" in d.fields && "params" in d.fields
    ensures d.fields["type"] == JStr(if a.actionType.Some? then a.actionType.value else a.repr)
    ensures d.fields["params"] == JStr(a.repr)
    ensures ("node" in d.fields <==> a.nodeId.Some?) && (a.nodeId.Some? ==> d.fields["node"] == a.nodeId.value)
    ensures ("edge" in d.fields <==> a.edge.Some?) && (a.edge.Some? ==> d.fields["edge"] == a.edge.value)
    ensures ("coordinate" in d.fields <==> a.coordinate.Some?) &&
            (a.coordinate.Some? ==> d.fields["coordinate"] == a.coordinate.value)
    ensures d.fields.Keys <= {"type", "params", "node", "edge", "coordinate"}
  {
    var base := map["type" := JStr(if a.actionType.Some? then a.actionType.value else a.repr), "params" := JStr(a.repr)];
    JObj(WithOptional(WithOptional(WithOptional(base, "node", a.nodeId), "edge", a.edge), "coordinate", a.coordinate))
  }

  /** `_format_legal_actions`: one entry per action, in order. */
  method FormatLegalActions(actions: seq<ActionAttrs>) returns (formatted: seq<Json>)
    ensures |formatted| == |actions|
    ensures forall i :: 0 <= i < |actions| ==> formatted[i] == FormatLegalAction(actions[i])
  {
    formatted := [];
    for i := 0 to |actions|
      invariant |formatted| == i
      invariant forall k :: 0 <= k < i ==> formatted[k] == FormatLegalAction(actions[k])
    {
      formatted := formatted + [FormatLegalAction(actions[i])];
    }
  }

  /**
   * `_actions_match`: only a dict can match; an action with a type needs
   * the dict's "type" (default "") to be its name; node and edge are
   * compared only when the action has the attribute and the dict the key.
   * The coordinate is never compared.
   */
  predicate ActionsMatch(a: ActionAttrs, d: Json): (m: bool)
    ensures m ==> d.JObj?
    ensures m && a.actionType.Some? && a.actionType.value != "" ==> "type" in d.fields && d.fields["type"] == JStr(a.actionType.value)
    ensures d == JObj(map[]) ==> (m <==> a.actionType.None? || a.actionType.value == "")
  {
    d.JObj? &&
    (a.actionType.Some? ==> Get(d.fields, "type", JStr("")) == JStr(a.actionType.value)) &&
    (a.nodeId.Some? && "node" in d.fields ==> d.fields["node"] == a.nodeId.value) &&
    (a.edge.Some? && "edge" in d.fields ==> d.fields["edge"] == a.edge.value)
  }

  /** A formatted legal action matches the action it was formatted from. */
  lemma MatchesOwnFormat(a: ActionAttrs)
    ensures ActionsMatch(a, FormatLegalAction(a))
  {
    var d := FormatLegalAction(a);
    assert a.actionType.Some? ==> Get(d.fields, "type", JStr("")) == JStr(a.actionType.value);
  }

  /** A dict that names the right type and carries no node and no edge matches, whatever the action's node and edge. */
  lemma TypeOnlyDictMatches(a: ActionAttrs, fields: map<string, Json>)
    requires "node" !in fields && "edge" !in fields
    requires a.actionType.Some? ==> "type" in fields && fields["type"] == JStr(a.actionType.value)
    ensures ActionsMatch(a, JObj(fields))
  {
  }

  /** A dict whose type differs from the action's type name never matches. */
  lemma TypeMismatchFails(a: ActionAttrs, fields: map<string, Json>)
    requires a.actionType.Some? && Get(fields, "type", JStr("")) != JStr(a.actionType.value)
    ensures !ActionsMatch(a, JObj(fields))
  {
  }

  /** The first playable action that matches the dict, if any. */
  function FirstMatch(playable: seq<ActionAttrs>, d: Json): (r: Option<nat>)
    ensures r.Some? ==> r.value < |playable| && ActionsMatch(playable[r.value], d)
    ensures r.Some? ==> forall k :: 0 <= k < r.value ==> !ActionsMatch(playable[k], d)
    ensures r.None? ==> forall k :: 0 <= k < |playable| ==> !ActionsMatch(playable[k], d)
  {
    if playable == [] then None
    else if ActionsMatch(playable[0], d) then Some(0)
    else match FirstMatch(playable[1..], d)
      case None => None
      case Some(j) => Some(j + 1)
  }

  /** What the loop leaves in `action`: a playable action, or the dict itself. */
  datatype Resolved = Matched(action: ActionAttrs) | Unmatched(dict: Json)

  /**
   * The resolution loop after `get_move`: the first playable action that
   * matches the returned dict replaces it; with no match the dict stays.
   */
  method ResolveAction(playable: seq<ActionAttrs>, d: Json) returns (action: Resolved)
    ensures FirstMatch(playable, d).Some? ==> action == Matched(playable[FirstMatch(playable, d).value])
    ensures FirstMatch(playable, d).None? ==> action == Unmatched(d)
  {
    action := Unmatched(d);
    for i := 0 to |playable|
      invariant forall k :: 0 <= k < i ==> !ActionsMatch(playable[k], d)
      invariant action == Unmatched(d)
    {
      if ActionsMatch(playable[i], d) {
        action := Matched(playable[i]);
        return;
      }
    }
  }

  /**
   * Resolving the formatted form of legal action i finds a match at i or
   * before it: an earlier action with the same type name and no
   * conflicting node or edge is taken instead.
   */
  lemma ResolveFormatted(playable: seq<ActionAttrs>, i: nat)
    requires i < |playable|
    ensures FirstMatch(playable, FormatLegalAction(playable[i])).Some?
    ensures FirstMatch(playable, FormatLegalAction(playable[i])).value <= i
  {
    MatchesOwnFormat(playable[i]);
  }

  /**
   * Two robber moves that differ only in their coordinate: the second,
   * formatted and resolved, comes back as the first.
   */
  lemma CoordinateIgnored()
    ensures var first := ActionAttrs("MOVE_ROBBER (0, 0, 0)", Some("MOVE_ROBBER"), None, None, Some(JStr("(0, 0, 0)")));
      var second := ActionAttrs("MOVE_ROBBER (1, -1, 0)", Some("MOVE_ROBBER"), None, None, Some(JStr("(1, -1, 0)")));
      first != second && FirstMatch([first, second], FormatLegalAction(second)) == Some(0)
  {
    var first := ActionAttrs("MOVE_ROBBER (0, 0, 0)", Some("MOVE_ROBBER"), None, None, Some(JStr("(0, 0, 0)")));
    var second := ActionAttrs("MOVE_ROBBER (1, -1, 0)", Some("MOVE_ROBBER"), None, None, Some(JStr("(1, -1, 0)")));
    var d := FormatLegalAction(second);
    assert Get(d.fields, "type", JStr("")) == JStr("MOVE_ROBBER");
    assert ActionsMatch(first, d);
    assert first.repr != second.repr by {
      assert first.repr[13] != second.repr[13];
    }
  }

  // ---------------------------------------------------------------------
  // The board view: hexes and roads

  /** Cube coordinates of the engine's land tiles. */
  type Cube = (int, int, int)

  /** The literal `cube_to_offset` table of the board view, row by row. */
  const CubeToOffset: map<Cube, (int, int)> := map[
    (-2, 0, 2) := (0, 0), (-1, -1, 2) := (1, 0), (0, -2, 2) := (2, 0),
    (-2, 1, 1) := (0, 1), (-1, 0, 1) := (1, 1), (0, -1, 1) := (2, 1), (1, -2, 1) := (3, 1),
    (-2, 2, 0) := (0, 2), (-1, 1, 0) := (1, 2), (0, 0, 0) := (2, 2), (1, -1, 0) := (3, 2), (2, -2, 0) := (4, 2),
    (-1, 2, -1) := (0, 3), (0, 1, -1) := (1, 3), (1, 0, -1) := (2, 3), (2, -1, -1) := (3, 3),
    (0, 2, -2) := (0, 4), (1, 1, -2) := (1, 4), (2, 0, -2) := (2, 4)
  ]

  /** The cube coordinates of the standard board: radius 2 around the centre. */
  predicate OnBoard(c: Cube) {
    -2 <= c.0 <= 2 && -2 <= c.1 <= 2 && -2 <= c.2 <= 2 && c.0 + c.1 + c.2 == 0
  }

  /** The table's keys are exactly the 19 cube coordinates of the board. */
  lemma CubeKeysOnBoard()
    ensures forall c: Cube :: c in CubeToOffset <==> OnBoard(c)
  {
    forall c: Cube | OnBoard(c)
      ensures c in CubeToOffset
    {
      var (x, y, z) := c;
      assert y == -x - z;
      if z == 2 {
        assert x == -2 || x == -1 || x == 0;
      } else if z == 1 {
        assert x == -2 || x == -1 || x == 0 || x == 1;
      } else if z == 0 {
        assert x == -2 || x == -1 || x == 0 || x == 1 || x == 2;
      } else if z == -1 {
        assert x == -1 || x == 0 || x == 1 || x == 2;
      } else {
        assert x == 0 || x == 1 || x == 2;
      }
    }
  }

  // The size of the table: the entries are listed in increasing `Rank`, so
  // each one adds a key not seen before.

  /** Row first (top row lowest), then position along the row. */
  function Rank(c: Cube): int {
    10 * (2 - c.2) + c.0
  }

  lemma AddAbove(m: map<Cube, (int, int)>, k: Cube, v: (int, int), bound: int)
    requires forall j :: j in m ==> Rank(j) <= bound
    requires bound < Rank(k)
    ensures |m[k := v]| == |m| + 1
    ensures forall j :: j in m[k := v] ==> Rank(j) <= Rank(k)
  {
    assert k !in m;
  }

  /** The table has 19 keys. */
  lemma CubeTableSize()
    ensures |CubeToOffset| == 19
  {
    var m: map<Cube, (int, int)> := map[];
    AddAbove(m, (-2, 0, 2), (0, 0), -100);
    m := m[(-2, 0, 2) := (0, 0)];
    AddAbove(m, (-1, -1, 2), (1, 0), Rank((-2, 0, 2)));
    m := m[(-1, -1, 2) := (1, 0)];
    AddAbove(m, (0, -2, 2), (2, 0), Rank((-1, -1, 2)));
    m := m[(0, -2, 2) := (2, 0)];
    AddAbove(m, (-2, 1, 1), (0, 1), Rank((0, -2, 2)));
    m := m[(-2, 1, 1) := (0, 1)];
    AddAbove(m, (-1, 0, 1), (1, 1), Rank((-2, 1, 1)));
    m := m[(-1, 0, 1) := (1, 1)];
    AddAbove(m, (0, -1, 1), (2, 1), Rank((-1, 0, 1)));
    m := m[(0, -1, 1) := (2, 1)];
    AddAbove(m, (1, -2, 1), (3, 1), Rank((0, -1, 1)));
    m := m[(1, -2, 1) := (3, 1)];
    AddAbove(m, (-2, 2, 0), (0, 2), Rank((1, -2, 1)));
    m := m[(-2, 2, 0) := (0, 2)];
    AddAbove(m, (-1, 1, 0), (1, 2), Rank((-2, 2, 0)));
    m := m[(-1, 1, 0) := (1, 2)];
    AddAbove(m, (0, 0, 0), (2, 2), Rank((-1, 1, 0)));
    m := m[(0, 0, 0) := (2, 2)];
    AddAbove(m, (1, -1, 0), (3, 2), Rank((0, 0, 0)));
    m := m[(1, -1, 0) := (3, 2)];
    AddAbove(m, (2, -2, 0), (4, 2), Rank((1, -1, 0)));
    m := m[(2, -2, 0) := (4, 2)];
    AddAbove(m, (-1, 2, -1), (0, 3), Rank((2, -2, 0)));
    m := m[(-1, 2, -1) := (0, 3)];
    AddAbove(m, (0, 1, -1), (1, 3), Rank((-1, 2, -1)));
    m := m[(0, 1, -1) := (1, 3)];
    AddAbove(m, (1, 0, -1), (2, 3), Rank((0, 1, -1)));
    m := m[(1, 0, -1) := (2, 3)];
    AddAbove(m, (2, -1, -1), (3, 3), Rank((1, 0, -1)));
    m := m[(2, -1, -1) := (3, 3)];
    AddAbove(m, (0, 2, -2), (0, 4), Rank((2, -1, -1)));
    m := m[(0, 2, -2) := (0, 4)];
    AddAbove(m, (1, 1, -2), (1, 4), Rank((0, 2, -2)));
    m := m[(1, 1, -2) := (1, 4)];
    AddAbove(m, (2, 0, -2), (2, 4), Rank((1, 1, -2)));
    m := m[(2, 0, -2) := (2, 4)];
    assert m == CubeToOffset;
  }

  /**
   * The offset of a hex: its row is 2 - z and its column counts from the
   * row's first hex.
   */
  lemma CubeLayout()
    ensures forall c :: c in CubeToOffset ==> CubeToOffset[c] == Layout(c)
  {
  }

  /** The offset of a cube: row 2 - z, column x + 2, shifted left by -z below the middle row. */
  function Layout(c: Cube): (int, int) {
    (c.0 + 2 + (if c.2 < 0 then c.2 else 0), 2 - c.2)
  }

  /** No two hexes share an offset. */
  lemma CubeInjective()
    ensures forall c, c' :: c in CubeToOffset && c' in CubeToOffset && CubeToOffset[c] == CubeToOffset[c'] ==> c == c'
  {
    CubeLayout();
    CubeKeysOnBoard();
    LayoutInjective();
  }

  /** The row-by-row offset formula separates the cubes of the board. */
  lemma LayoutInjective()
    ensures forall c: Cube, c': Cube :: OnBoard(c) && OnBoard(c') && Layout(c) == Layout(c') ==> c == c'
  {
  }

  /** A tile's resource: an enum with a value, another object, or none. */
  datatype Resource = Enum(value: string) | Plain(text: string) | NoResource

  datatype Tile = Tile(resource: Resource, number: Option<int>)

  /** One entry of the board's "hexes". */
  datatype Hex = Hex(coordinate: string, cubeCoord: string, resource: string, number: Option<int>)

  /** Python's `str` of an integer. */
  function IntToString(i: int): (r: string)
    ensures |r| > 0
  {
    if i < 0 then "-" + NatToString(-i) else NatToString(i)
  }

  /** The resource's name before lower-casing: a falsy resource is the desert. */
  function ResourceName(r: Resource): string {
    match r
    case Enum(v) => v
    case Plain(t) => if t != "" then t else "desert"
    case NoResource => "desert"
  }

  function HexOf(c: Cube, t: Tile, offset: (int, int)): Hex {
    Hex("(" + IntToString(offset.0) + ", " + IntToString(offset.1) + ")",
        "(" + IntToString(c.0) + ", " + IntToString(c.1) + ", " + IntToString(c.2) + ")",
        ToLower(ResourceName(t.resource)),
        if t.number.Some? && t.number.value != 0 then t.number else None)
  }

  /** The hexes of the land tiles, in order, skipping coordinates the table does not map. */
  function BoardHexes(tiles: seq<(Cube, Tile)>): (hexes: seq<Hex>)
    ensures |hexes| <= |tiles|
    ensures forall h :: h in hexes ==> h.number != Some(0) && h.resource == ToLower(h.resource)
  {
    if tiles == [] then []
    else
      var (c, t) := tiles[|tiles| - 1];
      var before := BoardHexes(tiles[..|tiles| - 1]);
      if c !in CubeToOffset then before
      else
        var h := HexOf(c, t, CubeToOffset[c]);
        assert h.resource == ToLower(h.resource) by { LowerIdempotent(ResourceName(t.resource)); }
        before + [h]
  }

  lemma LowerIdempotent(s: string)
    ensures ToLower(ToLower(s)) == ToLower(s)
  {
  }

  /** Every tile on the board gives a hex; a tile off the board gives none. */
  lemma {:induction false} BoardHexesCount(tiles: seq<(Cube, Tile)>)
    ensures (forall i :: 0 <= i < |tiles| ==> OnBoard(tiles[i].0)) ==> |BoardHexes(tiles)| == |tiles|
    ensures forall c, t :: !OnBoard(c) ==> BoardHexes(tiles + [(c, t)]) == BoardHexes(tiles)
  {
    CubeKeysOnBoard();
    if tiles != [] {
      BoardHexesCount(tiles[..|tiles| - 1]);
    }
    forall c, t | !OnBoard(c)
      ensures BoardHexes(tiles + [(c, t)]) == BoardHexes(tiles)
    {
      assert (tiles + [(c, t)])[..|tiles|] == tiles;
    }
  }

  /** The loop over `land_tiles` that builds the hexes. */
  method CollectHexes(tiles: seq<(Cube, Tile)>) returns (hexes: seq<Hex>)
    ensures hexes == BoardHexes(tiles)
  {
    hexes := [];
    for i := 0 to |tiles|
      invariant hexes == BoardHexes(tiles[..i])
    {
      assert tiles[..i + 1][..i] == tiles[..i];
      var (c, t) := tiles[i];
      var offset := if c in CubeToOffset then Some(CubeToOffset[c]) else None;
      if offset.None? {
        continue;
      }
      hexes := hexes + [HexOf(c, t, offset.value)];
    }
    assert tiles[..|tiles|] == tiles;
  }

  /** A road's key: a tuple of node ids, or some other value. */
  datatype Edge = Tuple(nodes: seq<int>) | Other(key: string)

  /** `tuple(sorted(edge))` for a 2-tuple; any other edge as it is. */
  function Normalize(e: Edge): (n: Edge)
    ensures e.Tuple? && |e.nodes| == 2 ==>
      n.Tuple? && |n.nodes| == 2 && multiset(n.nodes) == multiset(e.nodes) && n.nodes[0] <= n.nodes[1]
    ensures !(e.Tuple? && |e.nodes| == 2) ==> n == e
  {
    if e.Tuple? && |e.nodes| == 2 then
      assert e.nodes == [e.nodes[0], e.nodes[1]];
      Tuple(if e.nodes[0] <= e.nodes[1] then e.nodes else [e.nodes[1], e.nodes[0]])
    else e
  }

  /** The set `player_roads` for a colour. */
  function RoadSet(roads: seq<(Edge, Color)>, color: Color): set<Edge> {
    if roads == [] then {}
    else
      var before := RoadSet(roads[..|roads| - 1], color);
      var (e, c) := roads[|roads| - 1];
      if c == color then before + {Normalize(e)} else before
  }

  /** The road set holds exactly the normalised edges of the colour's road entries. */
  lemma {:induction false} RoadSetMembers(roads: seq<(Edge, Color)>, color: Color)
    ensures forall e :: e in RoadSet(roads, color) <==>
      exists i :: 0 <= i < |roads| && roads[i].1 == color && Normalize(roads[i].0) == e
  {
    if roads != [] {
      var prev, last := roads[..|roads| - 1], |roads| - 1;
      RoadSetMembers(prev, color);
      forall e
        ensures e in RoadSet(roads, color) <==>
          exists i :: 0 <= i < |roads| && roads[i].1 == color && Normalize(roads[i].0) == e
      {
        if e in RoadSet(prev, color) {
          var i :| 0 <= i < |prev| && prev[i].1 == color && Normalize(prev[i].0) == e;
          assert roads[i] == prev[i];
        }
        if exists i :: 0 <= i < |roads| && roads[i].1 == color && Normalize(roads[i].0) == e {
          var i :| 0 <= i < |roads| && roads[i].1 == color && Normalize(roads[i].0) == e;
          if i < last {
            assert prev[i] == roads[i];
          }
        }
      }
    }
  }

  /** The normalised edge of every road entry of the colour is in its road set. */
  lemma {:induction false} RoadInSet(roads: seq<(Edge, Color)>, i: nat, color: Color)
    requires i < |roads| && roads[i].1 == color
    ensures Normalize(roads[i].0) in RoadSet(roads, color)
  {
    var prev := roads[..|roads| - 1];
    if i < |prev| {
      assert prev[i] == roads[i];
      RoadInSet(prev, i, color);
    }
  }

  /** The road count of a colour: the size of the set the loop builds. */
  method CountRoads(roads: seq<(Edge, Color)>, color: Color) returns (count: nat)
    ensures count == |RoadSet(roads, color)|
  {
    var playerRoads: set<Edge> := {};
    for i := 0 to |roads|
      invariant playerRoads == RoadSet(roads[..i], color)
    {
      assert roads[..i + 1][..i] == roads[..i];
      var (edge, roadColor) := roads[i];
      if roadColor == color {
        if edge.Tuple? && |edge.nodes| == 2 {
          var normalized := Tuple(if edge.nodes[0] <= edge.nodes[1] then edge.nodes else [edge.nodes[1], edge.nodes[0]]);
          playerRoads := playerRoads + {normalized};
        } else {
          playerRoads := playerRoads + {edge};
        }
      }
    }
    assert roads[..|roads|] == roads;
    count := |playerRoads|;
  }

  /** A 2-tuple edge and its reverse, both of one colour, count as one road. */
  lemma ReverseRoadCountsOnce(roads: seq<(Edge, Color)>, a: int, b: int, color: Color)
    requires (Tuple([a, b]), color) in roads
    ensures RoadSet(roads + [(Tuple([b, a]), color)], color) == RoadSet(roads, color)
  {
    var i :| 0 <= i < |roads| && roads[i] == (Tuple([a, b]), color);
    var longer := roads + [(Tuple([b, a]), color)];
    var n := Normalize(Tuple([b, a]));
    assert longer[..|longer| - 1] == roads && longer[|longer| - 1] == (Tuple([b, a]), color);
    assert RoadSet(longer, color) == RoadSet(roads, color) + {n};
    assert n == Normalize(Tuple([a, b]));
    RoadInSet(roads, i, color);
  }

  /** No colour has more roads counted than road entries. */
  lemma {:induction false} RoadCountBound(roads: seq<(Edge, Color)>, color: Color)
    ensures |RoadSet(roads, color)| <= |roads|
  {
    if roads != [] {
      RoadCountBound(roads[..|roads| - 1], color);
    }
  }
}
