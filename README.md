# Catan LLM evaluation harness — a verified Dafny model

This project models the core of an evaluation harness in which language
models play 1-v-1 games of Catan against each other. Each game is played by
an external Catan engine, and the models are rated with Elo. The model
covers four pieces:

- **Reply resolver** (`src/llm_client.py`). `LLMClient.get_move` turns a
  model's free-text reply into an index into the legal actions. It tries, in
  order: the whole reply as JSON, the first brace fragment naming
  `"action_index"`, and the first word-bounded number. An unconditional
  bounds check then applies, and a catch-all answers index 0. The module also
  covers `_convert_actions`, `_format_action` and `LLMPlayer.decide_async`.
- **Elo engine and pair scheduler** (`src/elo_system.py`).
  - `EloRatingSystem` is a class holding the ratings table (kept in insertion
    order) and the append-only game history. It provides lazy enrolment, the
    rating update, the leaderboard, the matchup prediction, the statistics
    and reset.
  - `TournamentScheduler` is a cursor over the unordered model pairs.
- **Resumable round robin** (`tournament_manager.py`,
  `ResumableTournament`).
  - The schedule is every ordered pair of models times the game numbers, and
    the pending units are the schedule minus the completed ids.
  - `run_chunk` appends one record per game that returned and saves after
    each one.
  - The standings tally of `print_current_standings` can raise `KeyError`.
    That case is modelled as a `None` result.
- **Orchestration** (`src/evaluation.py`, `CatanLLMEvaluator`).
  - Mapping the winning colour to winner and loser models, and updating Elo.
  - `run_game`'s results and error results.
  - The turn loop of `_play_game_sync`, played against an abstract engine.
  - The first-mover alternation of `run_tournament`.
  - `_format_legal_actions`, `_actions_match` and the resolution loop.
  - The cube-to-offset hex table and the road de-duplication of the board
    view.

## How the model is built

- **Files.**
  - `Wrappers.dfy`: `Option`.
  - `Text.dfy`: Python's `strip`, substring search, `str`/`int` of naturals,
    ASCII `lower`.
  - `Json.dfy`: the values `json.loads` produces.
  - `Sorting.dfy`: a stable descending sort.
  - `Resolver.dfy`, `Elo.dfy`, `Tournament.dfy` and `Evaluation.dfy`: one per
    piece above.
- **JSON parsing.** `json.loads` is a parameter `parse: string -> Option<Json>`.
- **Expected score.** The Elo expectation `1 / (1 + 10^((b - a) / 400))`
  is a function value known only through `IsExpectation`: its value lies in
  (0, 1), and `E(a, b) + E(b, a) = 1`.
- **Catan engine.** The engine is a record of functions: winning colour,
  turn counter, colour to move, playable actions, and `execute`.
- **Players.** The players' replies are a function of the state, and the
  game's `game_id` and post-game failures are parameters.
- **Persistence.** The rating file and the progress file are a ghost
  `saved` snapshot. It equals the in-memory state after every save.
- **Constants.** Constants come from `src/config.py`:
  - `MAX_TURNS_PER_GAME` = 200, its default (the environment may override it);
  - `INITIAL_ELO` = 1500;
  - `ELO_K_FACTOR` = 32;
  - `DEFAULT_MODELS`.

Behaviour of the code worth knowing:

- **Resolver tiers.** The resolver has no tier for cue phrases such as
  "action index". A bounds violation keeps the reasoning of the tier that
  produced the candidate and adds no "defaulted" marker. Only the first
  fragment match is tried.
- **Matchup ids.** `"{m1}_vs_{m2}_game{n}"` is not collision-free.
  - `Tournament.MatchupIdCollision` gives two different units whose names
    contain neither "_vs_" nor "_game" and that still share an id.
  - The id is injective when no first model name contains "_vs". That is
    the precondition the resume lemmas use.
- **Draws.** A game without a winner does not update Elo as a draw. Only a
  decided game between two non-empty model names updates it.

## Model

| member | source | states |
|---|---|---|
| Text.Strip | src/llm_client.py:68 | `content.strip()`: the result has no leading or trailing Python whitespace and is a slice of the input |
| Text.StripIdempotent | src/llm_client.py:68 | stripping twice is stripping once |
| Text.NatToStringRoundTrip | tournament_manager.py:72 | reading back `str(n)` of a game number gives `n` |
| Text.NatToStringInjective | tournament_manager.py:72 | different game numbers print differently |
| Text.ToLower | src/evaluation.py:337 | ASCII `.lower()`: the same length, each ASCII capital lowered and every other character kept |
| Json.TypeName | src/llm_client.py:95 | the type name in the `AttributeError` is "dict" exactly for an object |
| Json.Get | src/llm_client.py:95 | `d.get(key, default)`: the stored value when present, else the default |
| Json.AsPyInt | src/llm_client.py:96 | `isinstance(v, int)` holds exactly for ints and bools, and `True` counts as 1 |
| Resolver.FindFragment | src/llm_client.py:78 | the leftmost span matching `\{[^{}]*"action_index"[^{}]*\}`, or none when nothing matches |
| Resolver.FragmentEndUnique | src/llm_client.py:78 | a fragment match is determined by its start |
| Resolver.FindNumber | src/llm_client.py:87 | the leftmost match of `\b(\d+)\b`, or none when nothing matches |
| Resolver.NumberEndUnique | src/llm_client.py:87 | a number match is determined by its start, because the digit run is maximal |
| Resolver.Decision | src/llm_client.py:70-92 | the tiers of the try/except: a reply that parses is used as is; otherwise the leftmost fragment's value when that fragment parses; with no parse and no fragment the fallback dict has exactly "action_index" (a non-negative int) and "reasoning", and the reasoning is "Could not parse response" exactly when the reply holds no bounded number |
| Resolver.CheckedIndex | src/llm_client.py:94-98 | the bounds check yields 0 or an index below n |
| Resolver.GetMove | src/llm_client.py:67-116 | `get_move` raises exactly when there are no legal actions; otherwise its index is in range and its action is `legal[index]` |
| Resolver.WholeReplyObject | src/llm_client.py:74-103 | a JSON-object reply with an in-range int index returns that index and the reply's reasoning |
| Resolver.WholeReplyWithoutIndex | src/llm_client.py:74-103 | an object without "action_index" gives 0, and "No reasoning provided" when it has no reasoning |
| Resolver.BadCandidateBecomesZero | src/llm_client.py:94-98 | whatever tier produced it, a non-int or out-of-range candidate becomes index 0 with `legal[0]` |
| Resolver.NonObjectReply | src/llm_client.py:74-116 | valid JSON that is not an object fails at `.get`; the catch-all answers 0 and names the type |
| Resolver.FragmentUnparsable | src/llm_client.py:78-84 | an unparsable first fragment gives 0 with "JSON parsing failed", and the digit tier is not tried |
| Resolver.FragmentObject | src/llm_client.py:76-81 | a reply that is not JSON but whose leftmost fragment is a JSON object with an in-range int index returns that index and the fragment's reasoning |
| Resolver.NumberTier | src/llm_client.py:86-90 | with no JSON and no fragment, the first bounded number is kept if in range, else 0, with "Extracted number from response" |
| Resolver.NothingParsed | src/llm_client.py:91-92 | with no JSON, no fragment and no number, the answer is 0 with "Could not parse response" |
| Resolver.BooleanIndex | src/llm_client.py:95-96 | a JSON `true` index passes the int check as 1 |
| ResolverExamples.ProseReplyDefaultsToZero | src/llm_client.py:87-98 | "I think action 7 is best" with 3 actions extracts 7 and then defaults to 0 |
| ResolverExamples.WellFormedReplyPicksTwo | src/llm_client.py:74-103 | a well-formed reply choosing index 2 of 5 actions returns action 2 with its reasoning |
| Resolver.ConvertAction | src/llm_client.py:380-402 | one action's dict: raw is `str(action)`, the type is the first element's value or str, and a non-tuple is `{type: str, raw: str}` |
| Resolver.ConvertActions | src/llm_client.py:375-404 | `_convert_actions` gives one dict per action, in order |
| Resolver.FormatAction | src/llm_client.py:197-228 | `_format_action`: the text opens with the description of the first marker, in branch order, that the type contains (`FirstMarker`), and a type with no marker is shown as it is |
| Resolver.UnknownTypeVerbatim | src/llm_client.py:226-228 | a type containing no marker is shown verbatim |
| Resolver.SettlementBranchFirst | src/llm_client.py:202-203 | the first matching branch wins: a type containing BUILD_SETTLEMENT shows the node |
| Resolver.ConvertedSettlementShowsNode | src/llm_client.py:389-390 | converting and then formatting a settlement shows the node it carried |
| Resolver.ConvertedOtherShownVerbatim | src/llm_client.py:402 | a non-tuple action without markers is shown as its own `str()` |
| Resolver.DecideAsync | src/llm_client.py:239-249 | `decide_async` returns `playable[index]` for the index `get_move` resolved, and raises exactly when nothing is playable |
| Elo.Adjusted | src/elo_system.py:59-78 | the update is zero-sum; a win raises the winner by less than K and lowers the loser; a draw between equal ratings changes nothing |
| Elo.Prediction | src/elo_system.py:102-114 | the keys are both models and "rating_difference" = abs(ra - rb), for two distinct names the probabilities lie in (0, 1) and sum to 1, and a self-matchup at equal ratings gives 0.5 |
| Elo.EloRatingSystem.constructor | src/elo_system.py:11-30 | a new table holds the loaded snapshot, or starts empty without one |
| Elo.EloRatingSystem.GetRating | src/elo_system.py:49-53 | an unseen model is inserted at the initial rating; nothing else changes |
| Elo.EloRatingSystem.ExpectedScore | src/elo_system.py:55-57 | the expectation lies in (0, 1) and complements the reverse one |
| Elo.EloRatingSystem.UpdateRatings | src/elo_system.py:59-96 | both sides are enrolled, rated from their old ratings, one record (before/after values) is appended, others are untouched, and the state is saved |
| Elo.EloRatingSystem.Leaderboard | src/elo_system.py:98-100 | the table's entries as a permutation, sorted highest rating first |
| Elo.LeaderboardEntries | src/elo_system.py:98-100 | each entry of the leaderboard is a model with its rating, and each model appears once |
| Elo.LeaderboardTiesKeepOrder | src/elo_system.py:100 | equal ratings keep insertion order (stable sort) |
| Elo.EloRatingSystem.GetMatchupPrediction | src/elo_system.py:102-114 | both models are enrolled lazily and the prediction is returned |
| Elo.EloRatingSystem.GetStatistics | src/elo_system.py:116-159 | the no-games summary, or the totals, draws, per-model counts in first-appearance order, and leaderboard |
| Elo.StatsGamesPlayed | src/elo_system.py:147-150 | games_played = wins + losses + draws = sides taken |
| Elo.PlayedTotal | src/elo_system.py:125-150 | the games_played of all entries sum to 2 * total_games |
| Elo.AppearancesExactly | src/elo_system.py:134-137 | a model has an entry exactly when it took a side |
| Elo.TallyHistory | src/elo_system.py:129-144 | the counting loop yields each model's wins, losses and draws |
| Elo.EnterModel | src/elo_system.py:134-137 | a model not yet counted gets zero counters and is appended to the key order; the counters stay exact |
| Elo.CountGame | src/elo_system.py:139-144 | a draw adds a draw to both sides, otherwise a win to the winner and a loss to the loser; no other entry changes |
| Elo.TallyGame | src/elo_system.py:130-144 | one iteration turns the counters of the earlier games into those including this game |
| Elo.CountDraws | src/elo_system.py:126 | counts the draws of the history |
| Elo.EloRatingSystem.ResetRatings | src/elo_system.py:161-166 | the table and the history are emptied and saved |
| Elo.PairsCount | src/elo_system.py:176-182 | n(n-1)/2 pairs, each i < j < n |
| Elo.PairsComplete | src/elo_system.py:176-182 | every pair i < j < n occurs |
| Elo.PairsIncreasing | src/elo_system.py:176-182 | the pairs come in strictly increasing order, so none repeats |
| Elo.GenerateMatchups | src/elo_system.py:176-182 | the nested loops produce the named pairs |
| Elo.AppendPairRow | src/elo_system.py:180-181 | the inner loop appends the pairs (i, j) for every j after i |
| Elo.TournamentScheduler.constructor | src/elo_system.py:171-174 | the cursor starts at 0 over the generated pairs |
| Elo.TournamentScheduler.GetNextMatchup | src/elo_system.py:184-190 | the pair under the cursor is returned and the cursor advances, or None at the end with no change |
| Elo.TournamentScheduler.GetProgress | src/elo_system.py:192-199 | completed + remaining = total, and fewer than 2 models divides by zero |
| Elo.TournamentScheduler.Reset | src/elo_system.py:201-203 | the cursor is back at 0 |
| Tournament.MatchupId | tournament_manager.py:72 | the id (also built at line 107) opens with the first model and "_vs_", and ends with "_game" and `str(game_num)` |
| Tournament.MatchupIdInjective | tournament_manager.py:72 | ids are equal only for equal units, when no first name contains "_vs" |
| Tournament.MatchupIdCollision | tournament_manager.py:72 | names free of "_vs_" and "_game" can still collide |
| Tournament.ScheduleShape | tournament_manager.py:55-63 | n(n-1)g cells, exactly the ordered pairs i != j with games below g, in loop order |
| Tournament.AllUnitsShape | tournament_manager.py:55-63 | the units name models[i], models[j] and game k for each scheduled cell |
| Tournament.AllUnitsComplete | tournament_manager.py:55-63 | every ordered pair of positions and game number is scheduled |
| Tournament.ScheduleIdsDistinct | tournament_manager.py:55-72 | distinct model names without "_vs" give pairwise different unit ids |
| Tournament.GenerateAllMatchups | tournament_manager.py:55-63 | the three nested loops produce the schedule |
| Tournament.NextOpponent | tournament_manager.py:60-63 | one iteration of the middle loop skips i itself and otherwise appends all games of i against j |
| Tournament.IsCompletedExists | tournament_manager.py:73 | `any(...)` holds exactly when some record carries the id |
| Tournament.CompletedIds | tournament_manager.py:73 | the set of recorded ids is exactly the ids `any(...)` finds |
| Tournament.PendingMembers | tournament_manager.py:65-76 | pending is the schedule filtered to units whose id is not completed |
| Tournament.NothingCompleted | tournament_manager.py:65-76 | with no records the whole schedule is pending |
| Tournament.PendingCount | tournament_manager.py:65-76 | pending plus the completed ids of the schedule make up the schedule |
| Tournament.ResumeCount | tournament_manager.py:65-76 | distinct completed ids drawn from the schedule give |pending| = total - |completed| |
| Tournament.SliceTo | tournament_manager.py:95 | `pending[:chunk_size]` is a prefix of Python-slice length |
| Tournament.ChunkRecordsMembers | tournament_manager.py:97-129 | a record is written exactly for each chunk game that returned |
| Tournament.ResumableTournament.constructor | tournament_manager.py:20-29 | starts from the loaded records with an empty session |
| Tournament.ResumableTournament.GetPendingMatchups | tournament_manager.py:65-76 | returns the pending units |
| Tournament.ResumableTournament.RunChunk | tournament_manager.py:78-131 | nothing pending returns False with no change; otherwise the first chunk_size pending units are played in order, returned games append their record to both lists and save, and the result is True |
| Tournament.ReturnedLeavesPending | tournament_manager.py:103-118 | a chunk game that returned is no longer pending |
| Tournament.RaisedStaysPending | tournament_manager.py:127-129 | a chunk game that raised stays pending |
| Tournament.TallyRecord | tournament_manager.py:139-157 | one iteration succeeds exactly when it raises no KeyError, and then keeps the counters exact |
| Tournament.EnterSide | tournament_manager.py:145-148 | a side missing from wins gets zero in both counters; the counters stay exact |
| Tournament.EnterSides | tournament_manager.py:145-148 | both sides are entered, and games_played receives exactly the sides wins lacked |
| Tournament.CurrentStandings | tournament_manager.py:133-173 | None exactly when the tally raises; otherwise the rows in `models` order, sorted by win rate, highest first |
| Tournament.StandingRowsShape | tournament_manager.py:165-171 | one row per model, and a model without games gets (m, 0, 0, 0.0) |
| Tournament.ConsistentNeverFails | tournament_manager.py:139-157 | records whose winner is one of their two sides never make the tally raise |
| Tournament.WinsAtMostGames | tournament_manager.py:139-157 | over consistent records wins never exceed games |
| Tournament.WinRateBounds | tournament_manager.py:165-173 | over consistent records every win rate lies in [0, 1] |
| Evaluation.WinnerModels | src/evaluation.py:71-80 | RED gives (model1, model2), BLUE gives (model2, model1), anything else (None, None) |
| Evaluation.UpdatesEloExactly | src/evaluation.py:88 | Elo is updated exactly for a RED or BLUE win between non-empty names |
| Evaluation.Choice | src/evaluation.py:197-221 | the action taken is playable, and "AUTO MOVE" exactly when it is the only one |
| Evaluation.PlayFrom | src/evaluation.py:179-247 | the turn loop's run: it executes at most `fuel` actions, and it runs out of fuel only after exactly `fuel` of them |
| Evaluation.PlayTrace | src/evaluation.py:179-239 | one action record per executed action, in order: each action and its reasoning are the choice made in that state (the only action as "AUTO MOVE", else the player's `decide`), with that state's turn and colour |
| Evaluation.PlayStops | src/evaluation.py:179-194 | the loop stops on a winner, past the turn limit, with no actions, or when execute raises |
| Evaluation.PlayGameSync | src/evaluation.py:168-247 | the while loop computes the run and returns the engine's winning colour |
| Evaluation.ChooseAction | src/evaluation.py:198-221 | the only playable action is taken as an AUTO MOVE, otherwise the player's decision |
| Evaluation.Advance | src/evaluation.py:223-233 | logging and executing one action moves it from the rest of the run into the part already played |
| Evaluation.RunGameOutcome | src/evaluation.py:120-166 | an error result has no winner, loser or turns; otherwise the mapped winner and loser and the turn count |
| Evaluation.OutcomeNamesPlayers | src/evaluation.py:71-80 | a named winner is one of the two models, and the other is the loser |
| Evaluation.ChunkRecordConsistent | tournament_manager.py:103-116 | the record written for a game between two named models is consistent |
| Evaluation.Evaluator.constructor | src/evaluation.py:22-26 | an empty model list falls back to DEFAULT_MODELS; Elo starts with K = 32 and 1500, from the stored ratings or, without them, with an empty table, order and history |
| Evaluation.Evaluator.RunGame | src/evaluation.py:32-166 | the outcome; when a decided game between named models ends, Elo is updated as `update_ratings(winner, loser)` without a draw: the new ratings from the old ones, one record appended, the enrolment order and the save; otherwise Elo is untouched |
| Evaluation.Evaluator.RunTournament | src/evaluation.py:447-477 | the run_game calls: for each scheduled pair, g games alternating the first mover |
| Evaluation.TournamentCallAt | src/evaluation.py:459-477 | there are |pairs| * g calls; call p*g + k plays pair p as given when k is even, swapped when odd |
| Evaluation.FirstMoverBalance | src/evaluation.py:470-477 | of g games the pair's first model moves first (g+1)/2 times and the second g/2 times |
| Evaluation.FormatLegalAction | src/evaluation.py:382-397 | type name (or str), params = str, and node/edge/coordinate exactly when present |
| Evaluation.FormatLegalActions | src/evaluation.py:380-399 | one entry per action, in order |
| Evaluation.ActionsMatch | src/evaluation.py:401-420 | `_actions_match`: only a dict can match; a match of a typed action with a non-empty type name carries that type; an empty dict matches exactly an untyped action or one whose type name is empty |
| Evaluation.MatchesOwnFormat | src/evaluation.py:401-420 | a formatted action matches the action it came from |
| Evaluation.TypeOnlyDictMatches | src/evaluation.py:401-420 | node and edge are compared only when both sides carry them |
| Evaluation.TypeMismatchFails | src/evaluation.py:406-408 | a type-name mismatch never matches |
| Evaluation.FirstMatch | src/evaluation.py:214-217 | the first matching playable action, or none |
| Evaluation.ResolveAction | src/evaluation.py:214-217 | the first match replaces the dict, and with none the dict stays |
| Evaluation.ResolveFormatted | src/evaluation.py:214-217 | resolving action i's own dict finds a match at or before i |
| Evaluation.CoordinateIgnored | src/evaluation.py:401-420 | two robber moves differing only in coordinate resolve to the first |
| Evaluation.CubeKeysOnBoard | src/evaluation.py:293-317 | the keys are exactly the cube coordinates within radius 2 with x+y+z = 0 |
| Evaluation.CubeTableSize | src/evaluation.py:293-317 | the table has 19 keys |
| Evaluation.CubeLayout | src/evaluation.py:293-317 | the row is 2 - z and the column counts from the row's first hex |
| Evaluation.CubeInjective | src/evaluation.py:293-317 | no two keys share an offset |
| Evaluation.BoardHexes | src/evaluation.py:319-340 | at most one hex per tile, with no number 0 and a lower-case resource |
| Evaluation.BoardHexesCount | src/evaluation.py:319-323 | every board tile gives a hex, and an unmapped tile is skipped |
| Evaluation.CollectHexes | src/evaluation.py:319-340 | the loop builds the hexes |
| Evaluation.Normalize | src/evaluation.py:282-284 | a 2-tuple edge is sorted, and any other edge is kept |
| Evaluation.RoadSetMembers | src/evaluation.py:279-287 | the road set holds exactly the normalised edges of that colour |
| Evaluation.RoadInSet | src/evaluation.py:279-287 | every road entry of the colour contributes its normalised edge |
| Evaluation.CountRoads | src/evaluation.py:279-287 | the loop counts the de-duplicated roads |
| Evaluation.ReverseRoadCountsOnce | src/evaluation.py:279-287 | a 2-tuple edge and its reverse count as one road |
| Evaluation.RoadCountBound | src/evaluation.py:279-287 | a colour never has more roads than road entries |

## Left out

- Network: the OpenRouter request, the web-server notifications and the web server itself. The reply text is a parameter of the players.
- File persistence: loading and saving ratings, progress and game logs. A ghost snapshot equals the state after each save. The loaded content is a constructor parameter.
- Timestamps and `game_id` generation: `game_id` is a parameter.
- Console output, logging and `time.sleep`.
- Floating point: ratings, probabilities and win rates are reals. `10 ** x` is not computed; only `IsExpectation` is known of it. `get_progress`'s percentage is a real division.
- Evaluation.PlayFrom: the engine is abstract, so termination of the turn loop is not provable. The loop takes a fuel bound, and `OutOfFuel` is a stop that the source does not have.
- The `get_move` branch of `_play_game_sync` (src/evaluation.py:205-217) is unreachable, because `LLMPlayer` defines no `get_move`. The turn loop uses `decide`. `_format_legal_actions`, `_actions_match` and the resolution loop are modelled on their own.
- The event-loop wrapper of `LLMPlayer.decide` and other concurrency.
- The `asyncio.TimeoutError` path of `run_game`: nothing raises it.
- Exceptions from state extraction, before or inside the loop: `_convert_game_state` runs on every `decide`, and `_get_simplified_game_state` runs after every `execute`, where an exception ends the game after the action was executed. The board view models only the cube table, the hexes and the road count.
- `Config.validate()` in `CatanLLMEvaluator.__init__`: the `ValueError` raised when no OpenRouter API key is set is not modelled; the constructor always succeeds.
- The environment overrides of `src/config.py` (such as `MAX_TURNS_PER_GAME`): the model fixes the defaults.
- Text.ToLower: ASCII only. Python's `str.lower` also lowers non-ASCII letters and can change the length (for example `"İ".lower()` has two characters).
- Evaluation.ActionsMatch: Python's cross-type equality (`1 == 1.0 == True`, a tuple versus a list) is modelled as structural equality of JSON values.
- Resolver.Decision: the JSON oracle either parses or fails with `JSONDecodeError`. The other exceptions of this step are not modelled: `json.loads` raising `RecursionError` on deep nesting or `ValueError` on an integer literal of more than 4300 digits, and `int(...)` on such a digit run (src/llm_client.py:89). The source does not catch these at lines 75 and 82, so they skip the remaining tiers and reach the catch-all (index 0, "Error occurred" reasoning), whereas the model goes on to the next tier.
- Resolver.IsWordChar: the regex word class is ASCII only. Python's `\w` and `\d` also match other Unicode letters and digits.
- `ResumableTournament.pending_matchups` is never read by the source and is not modelled.
- Evaluation.Evaluator.RunTournament: returns the sequence of `run_game` calls rather than the results dict. Standings display and result saving are output.
