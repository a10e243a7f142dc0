# Jeoparty game engine in Dafny

This project models the game engine of Jeoparty, a multiplayer Jeopardy game
with a presenter screen, contestants buzzing in from their phones, and a
question-pack editor. It also proves properties of that model. The model covers
the rules that decide scores, turns, buzzes, power-ups and round progression,
plus the data handling of the pack editor and the pack store:

- `orm.dfy` (module `Orm`): the ORM query helpers of `models.py`. These are the
  first-match lookups, the per-round filter, the flattening of a pack into its
  questions, the game winners, `set_contestant_turn` and `extra_fields`.
- `socket_handlers.dfy` (module `SocketHandlers`): the server's Socket.IO
  handlers (`socket.py`) as the methods of class `SocketHandler`. They cover
  buzz windows and the buzz arbitration, power-up gating, score deltas and
  their undo, wager checks and finale scoring.
- `progression.dfy` (module `Progression`): round progression in the
  presenter's `selection`, `question` and `endscreen` routes (`presenter.py`),
  and the `ended_at` rule of `save_game`.
- `pack_store.dfy` (module `PackStore`): `update_question_pack`'s
  normalisation of a posted pack, `_get_update_statement` and
  `get_unique_join_code` (`database.py`).
- `pack_editor.dfy` (module `PackEditor`): the editor's data helpers
  (`question_pack.js`). They are the URL hash, unique and random media names,
  MIME-type extensions, the sync and delete functions on `questionData`, the
  default question value and the question order. Class `Editor` holds
  `questionData`, `questionMedia` and the location hash. `getNextId` is the
  function `Editor.GetNextId`, used by `AddRound` and `AddCategory`.
- `presenter_engine.dfy` (module `PresenterEngine`): the presenter page's
  round engine (`presenter.js`). Class `Presenter` holds the page globals in one
  `PageState` record. Each handler is proved to leave the page in the state a
  transition function describes (`Corrected`, `Wronged`, `Undone`, `Rewound`,
  `Hijacked`, ...). Lemmas relate those transitions.
- `shared_routes.dfy` (module `SharedRoutes`): `validate_file`, the form
  coercion of `create_and_validate_model`, `get_question_answer_sounds`,
  `get_locale_data` and `get_validation_error_msg`.
- `legacy_shared.dfy` (module `LegacyShared`): `validate_param` and
  `get_contestant_metadata` of the older `src/app/routes/shared.py`.
- `text.dfy`, `seq_util.dfy` and `wrappers.dfy` hold helpers:
  - Python's `int()` and `str()`, and JavaScript's `parseInt`;
  - string splitting, joining and searching;
  - JavaScript string order;
  - `Filter` and `FirstIndex` on sequences;
  - `Option` and `Result`.

Randomness (`random.shuffle`, `random.choice`, `Math.random`) is a parameter:
a permutation, or the indices drawn. The clock is an integer parameter. What a
page handler reads from the DOM is a parameter too: tips shown, wrong choices,
whether a player still holds rewind, whether the question is shown. The file
system is the set of existing paths. `secure_filename` and the name pattern are
function parameters.

## Model

| member | source | states |
|---|---|---|
| Orm.GetPower | src/jeoparty/api/orm/models.py:258-263 | The result is the first power-up of the requested type. It is None exactly when the contestant has no power-up of that type. |
| Orm.GetContestant | src/jeoparty/api/orm/models.py:317-325 | A None id gives None. Otherwise the result is the contestant of the first game contestant with that contestant id, and None exactly when there is none. |
| Orm.GetGameContestant | src/jeoparty/api/orm/models.py:327-335 | A None id gives None. Otherwise the result is the first game contestant with that id, and None exactly when none has it. |
| Orm.GetQuestion | src/jeoparty/api/orm/models.py:337-342 | The result is the first game question with that question id. It is None exactly when there is none. |
| Orm.GetContestantWithTurn | src/jeoparty/api/orm/models.py:344-349 | The result is the first contestant holding the turn. It is None exactly when nobody holds it. |
| Orm.GetActiveQuestion | src/jeoparty/api/orm/models.py:357-362 | The result is the first active question. It is None exactly when no question is active. |
| Orm.GetQuestionsForRound | src/jeoparty/api/orm/models.py:351-355 | A question is in the result exactly when it is a game question whose category's round is the game's round. |
| Orm.RoundPositionsPickRound | src/jeoparty/api/orm/models.py:351-355 | The positions of the round's questions pick out, in order, exactly the questions the round filter keeps. |
| Orm.MaxScore | src/jeoparty/api/orm/models.py:364-378 | The top score of a non-empty list: no contestant scores more, and some contestant scores exactly it. |
| Orm.InsertByScore | src/jeoparty/api/orm/models.py:365-369 | One insertion step of the descending sort keeps the order descending and adds exactly one entry. |
| Orm.InsertByScoreMembers | src/jeoparty/api/orm/models.py:365-369 | The insertion loses no contestant and adds only the inserted one. |
| Orm.SortByScore | src/jeoparty/api/orm/models.py:365-369 | `sorted(..., key=score, reverse=True)` returns a descending list of the same length. |
| Orm.SortByScoreMembers | src/jeoparty/api/orm/models.py:365-369 | The sorted list holds exactly the contestants of the input. |
| Orm.InsertByScoreStable | src/jeoparty/api/orm/models.py:365-369 | Among contestants with equal scores, the insertion keeps their order and puts the new one last. |
| Orm.SortByScoreStable | src/jeoparty/api/orm/models.py:365-369 | The sort is stable: for every score, the contestants with that score keep their original relative order. |
| Orm.SortedHeadIsMax | src/jeoparty/api/orm/models.py:365-378 | The first contestant of the sorted list has the top score. |
| Orm.TopRunOfSortIsWinners | src/jeoparty/api/orm/models.py:371-378 | The run of top scores at the head of the sorted list is exactly the top scorers in their original order. |
| Orm.GetGameWinners | src/jeoparty/api/orm/models.py:364-378 | The tie-counting loop returns exactly the contestants with the maximum score, in their original relative order. It returns nothing when there are no contestants. |
| Orm.CategoriesQuestionsMembers | src/jeoparty/api/orm/models.py:61-68 | A question is in the flattened categories exactly when some category holds it. |
| Orm.RoundsQuestionsMembers | src/jeoparty/api/orm/models.py:61-68 | A question is in the flattened pack exactly when some category of some round holds it. |
| Orm.GetAllQuestions | src/jeoparty/api/orm/models.py:61-68 | The nested append loops return the in-order flattening of rounds, then categories, then questions. |
| Orm.MaxValue | src/jeoparty/api/orm/models.py:312 | The largest question value of the round: every question's value is at most it, and it is 0 when the round has no questions. |
| Orm.Game.GameExtraFields | src/jeoparty/api/orm/models.py:305-315 | `total_rounds` is `regular_rounds` plus one exactly when the pack includes a finale. `player_with_turn` is None exactly when nobody holds the turn. `max_value` bounds the round's values and is 0 for an empty round. `question_num` is the number of used questions plus one. |
| Orm.Game.SetContestantTurn | src/jeoparty/api/orm/models.py:380-382 | Afterwards `has_turn` is true exactly for the entries whose contestant id is the given one. Nothing else changes. |
| Orm.TurnHolderAfterSet | src/jeoparty/api/orm/models.py:344-382 | After `set_contestant_turn(c)` the turn holder is the first entry with contestant id `c`, and nobody when there is none. |
| SocketHandlers.ContestantIndex | src/jeoparty/api/orm/models.py:327-335 | The position of a joined game contestant: the first entry with that id. |
| SocketHandlers.ContestantIndexUnique | src/jeoparty/api/orm/models.py:327-335 | With unique ids, looking up an entry's id finds that entry. |
| SocketHandlers.SameIdsSameLookup | src/jeoparty/api/orm/models.py:327-335 | Changing contestants' fields other than their ids does not change what a lookup finds. |
| SocketHandlers.CorrectAnswerUpdate | src/jeoparty/app/routes/socket.py:222-244 | The answerer gains one hit, the value and the turn, and any other holder loses the turn. With unique ids and at most one holder before, the answerer is afterwards the only holder. |
| SocketHandlers.WrongAnswerUpdate | src/jeoparty/app/routes/socket.py:246-260 | The answerer gains one miss and loses the value. Nobody else changes. |
| SocketHandlers.RewindUpdate | src/jeoparty/app/routes/socket.py:314-322 | The contestant regains the value and loses one miss. Nobody else changes. |
| SocketHandlers.UndoAnswerUpdate | src/jeoparty/app/routes/socket.py:385-399 | The score moves by the value. A negative value takes back a hit and any other value takes back a miss. The turn is never reverted. |
| SocketHandlers.FirstTurnUpdate | src/jeoparty/app/routes/socket.py:268-283 | The chosen contestant ends up holding the turn exactly when they did not hold it before, because the holder is read first and cleared afterwards. With at most one holder before, nobody else holds it. |
| SocketHandlers.FinaleCorrectUpdate | src/jeoparty/app/routes/socket.py:489-498 | Without a finale wager (None or 0) nothing changes. Otherwise the contestant gains the amount and one hit. |
| SocketHandlers.FinaleWrongUpdate | src/jeoparty/app/routes/socket.py:500-509 | Without a finale wager nothing changes. Otherwise the contestant loses the amount and gains one miss. |
| SocketHandlers.GiveFinaleAnswerUpdate | src/jeoparty/app/routes/socket.py:476-487 | Without a finale wager nothing changes. Otherwise the answer is stored. |
| SocketHandlers.BuzzCountUpdate | src/jeoparty/app/routes/socket.py:345 | The buzzing contestant's buzz count goes up by one. Nobody else changes. |
| SocketHandlers.EditPowers | src/jeoparty/app/routes/socket.py:412-416 | A power-up named in the posted powers takes the posted `used` flag. Every other power-up keeps its flag. |
| SocketHandlers.EditInfoUpdate | src/jeoparty/app/routes/socket.py:401-420 | Hits, misses and score take the posted values where given and keep theirs otherwise. The power-ups are edited as posted, and nothing else changes. |
| SocketHandlers.UndoAfterCorrectRestoresScore | src/jeoparty/app/routes/socket.py:385-399 | A correct answer for a positive value followed by an undo of minus that value restores score, hits and misses. The correct answer is the handler at lines 222-244. |
| SocketHandlers.UndoAfterWrongRestoresScore | src/jeoparty/app/routes/socket.py:385-399 | A wrong answer for a non-negative value followed by an undo of that value restores the contestants exactly. The wrong answer is the handler at lines 246-260. |
| SocketHandlers.RewindAfterWrongRestores | src/jeoparty/app/routes/socket.py:246-322 | A rewind after a wrong answer restores the contestants exactly. |
| SocketHandlers.UndoOfZeroValueTakesBackMiss | src/jeoparty/app/routes/socket.py:390-393 | Undoing a correct answer worth 0 takes back a miss instead of the hit. The hit stays and the misses drop by one. |
| SocketHandlers.FirstTurnToHolderClearsTurn | src/jeoparty/app/routes/socket.py:268-283 | Giving the first turn to the contestant who already holds it leaves nobody holding the turn. |
| SocketHandlers.FinaleResultExample | src/jeoparty/app/routes/socket.py:489-509 | Scores -500, 300, 1200 and 0 with wagers 1000, 300, 700 and 0, judged correct, correct, wrong and wrong, become 500, 600, 500 and 0. |
| SocketHandlers.CheckWager | src/jeoparty/app/routes/socket.py:433-474 | A wager is accepted exactly when the text parses as a Python int within the bounds, and then the amount is that int. A refusal reports the bounds. |
| SocketHandlers.DailyWagerCheck | src/jeoparty/app/routes/socket.py:433-450 | A daily wager is accepted exactly when it parses and lies between 100 and max(score, 500 × round). A refusal reports those bounds. |
| SocketHandlers.FinaleWagerCheck | src/jeoparty/app/routes/socket.py:452-474 | A finale wager is accepted exactly when it parses and lies between 0 and max(score, 1000). A refusal reports those bounds. |
| SocketHandlers.DailyWagerNegativeScore | src/jeoparty/app/routes/socket.py:437-450 | With a negative score, any wager from 100 up to 500 × round is still accepted. |
| SocketHandlers.MetaIds | src/jeoparty/app/routes/socket.py:155 | The ids of the contestant metadata in insertion order. |
| SocketHandlers.FindMeta | src/jeoparty/app/routes/socket.py:334 | The metadata entry with that id. It is None exactly when the contestant has not joined. |
| SocketHandlers.MetaIndex | src/jeoparty/app/routes/socket.py:334 | The position of a joined contestant's metadata. |
| SocketHandlers.ScanEarliestIsFirstMinimum | src/jeoparty/app/routes/socket.py:357-363 | The min-scan picks a contestant with the smallest recorded buzz below the starting time. Every earlier entry buzzed strictly later, so ties go to the first in insertion order. It picks nobody exactly when nobody buzzed before that time. |
| SocketHandlers.SoleBuzzWins | src/jeoparty/app/routes/socket.py:357-363 | When exactly one contestant has buzzed, that contestant wins. |
| SocketHandlers.SameKindsSamePower | src/jeoparty/api/orm/models.py:258-263 | Changing power-ups' flags does not change which one `get_power` finds. |
| SocketHandlers.EnablePower | src/jeoparty/app/routes/socket.py:178-186 | Only the power-up `get_power` finds may change, and only to enabled. It is enabled afterwards exactly when it was enabled or unused. A used one is left as it is. |
| SocketHandlers.DisablePower | src/jeoparty/app/routes/socket.py:211-214 | The power-up is disabled, and no flag is raised anywhere. |
| SocketHandlers.UsePower | src/jeoparty/app/routes/socket.py:297-302 | Only the `used` flag of the power-up `get_power` finds changes, and afterwards it is set. |
| SocketHandlers.DisablePowers | src/jeoparty/app/routes/socket.py:209-214 | Disabling a list of types changes only the power-ups of those types, and only to disabled. |
| SocketHandlers.DisablePowersDisables | src/jeoparty/app/routes/socket.py:209-214 | Every listed type the contestant owns ends disabled. |
| SocketHandlers.EnableTargets | src/jeoparty/app/routes/socket.py:175-186 | Contestants outside the targets are untouched, and the ids keep their order. |
| SocketHandlers.EnableTargetsEffect | src/jeoparty/app/routes/socket.py:175-186 | Every targeted contestant's power-up ends enabled exactly when it was enabled or unused. Nothing else is raised. |
| SocketHandlers.DisableTargets | src/jeoparty/app/routes/socket.py:207-214 | Contestants outside the targets are untouched. |
| SocketHandlers.DisableTargetsOnlyDisables | src/jeoparty/app/routes/socket.py:207-214 | Disabling never enables or uses anything. |
| SocketHandlers.DisableTargetsDisables | src/jeoparty/app/routes/socket.py:207-214 | Every targeted contestant's listed power-ups end disabled. |
| SocketHandlers.ClearAndCollect | src/jeoparty/app/routes/socket.py:154-161 | The loop clears every `latest_buzz` and collects, in insertion order, exactly the ids marked active. If a joined contestant is missing from the posted map, the loop raises at that contestant: the entries up to it are cleared and the rest are untouched. |
| SocketHandlers.ScanBuzzes | src/jeoparty/app/routes/socket.py:356-363 | The min-scan loop returns the contestant `ScanEarliestIsFirstMinimum` describes. |
| SocketHandlers.ResetBuzzes | src/jeoparty/app/routes/socket.py:365-367 | Every `latest_buzz` is reset to None, and the contestants stay the same and in order. |
| SocketHandlers.EnableForTargets | src/jeoparty/app/routes/socket.py:175-186 | The loop fails exactly when a target lacks the power (`get_power` returns None and the source raises). Otherwise it enables as `EnableTargets` does, and skips someone exactly when some target has used the power. |
| SocketHandlers.EnableOne | src/jeoparty/app/routes/socket.py:176-186 | One target: it lacks the power or it is enabled as `EnablePower` says. Whether it was used is reported. |
| SocketHandlers.DisableForTargets | src/jeoparty/app/routes/socket.py:207-214 | The loop fails exactly when a target lacks one of the listed powers. Otherwise it disables as `DisableTargets` does. |
| SocketHandlers.DisableKinds | src/jeoparty/app/routes/socket.py:209-214 | One contestant: it lacks a listed power, or every listed power is disabled as `DisablePowers` says. |
| SocketHandlers.DisableKindsOf | src/jeoparty/app/routes/socket.py:205 | A given power id disables that power alone, and no id disables every power type. |
| SocketHandlers.SocketHandler.EnableTargetIds | src/jeoparty/app/routes/socket.py:169-173 | A given user id targets that contestant alone, and no id targets every joined contestant in join order. |
| SocketHandlers.SocketHandler.constructor | src/jeoparty/app/routes/socket.py:19-77 | A new handler has both decision flags false and no contestant metadata. |
| SocketHandlers.SocketHandler.JoinedIsContestant | src/jeoparty/app/routes/socket.py:119-130 | Every contestant with metadata is a game contestant. |
| SocketHandlers.SocketHandler.ApplyTo | src/jeoparty/app/routes/socket.py:222-509 | Storing updated contestants with the same ids keeps the handler's invariant and changes nothing else of the game. |
| SocketHandlers.SocketHandler.ContestantJoin | src/jeoparty/app/routes/socket.py:119-142 | A game contestant gets fresh metadata with no buzz, appended or replacing its own entry. Anyone else is turned away and nothing changes. |
| SocketHandlers.SocketHandler.EnableBuzz | src/jeoparty/app/routes/socket.py:151-165 | Every `latest_buzz` is cleared, the winner flag is reset, and the emitted ids are exactly those marked active, in join order. When the posted map misses a joined contestant, the handler raises part-way and the flag is unchanged. |
| SocketHandlers.SocketHandler.DisableBuzz | src/jeoparty/app/routes/socket.py:262-266 | The buzz winner is marked decided, and nothing else changes. |
| SocketHandlers.SocketHandler.RecordBuzz | src/jeoparty/app/routes/socket.py:333-345 | A press is recorded exactly when the contestant has joined and has no buzz yet in this window. A repeated press changes nothing. |
| SocketHandlers.SocketHandler.DecideBuzzWinner | src/jeoparty/app/routes/socket.py:354-383 | Once the winner is decided, later presses decide nothing. The first decision picks the earliest buzz (ties to the earliest joined), resets every buzz and marks the window decided. The presser's buzz count is saved, one higher, only when some buzz wins; with no earlier buzz the source fails at the winner lookup and nothing is saved. |
| SocketHandlers.SocketHandler.EnablePowerUp | src/jeoparty/app/routes/socket.py:167-196 | `power_use_decided` is reset unless the handler raises. The contestants change only when the save is sent: for a single target whose power is used, nothing is saved. Otherwise every unused power among the targets is enabled. |
| SocketHandlers.SocketHandler.DisablePowerUp | src/jeoparty/app/routes/socket.py:198-220 | Unless a target lacks a listed power, the chosen powers (all of them when none is named) are disabled for the targets and `power_use_decided` is set. |
| SocketHandlers.SocketHandler.UsePowerUp | src/jeoparty/app/routes/socket.py:285-312 | A use is accepted exactly when no use was decided yet in this enable cycle and the contestant's power is unused. Any joined press marks the cycle decided, so at most one use is accepted per cycle. Only the used power changes. |
| SocketHandlers.SocketHandler.CorrectAnswer | src/jeoparty/app/routes/socket.py:222-244 | For a joined contestant the contestants become `CorrectAnswerUpdate`, and otherwise nothing changes. |
| SocketHandlers.SocketHandler.WrongAnswer | src/jeoparty/app/routes/socket.py:246-260 | For a joined contestant the contestants become `WrongAnswerUpdate`, and otherwise nothing changes. |
| SocketHandlers.SocketHandler.UndoAnswer | src/jeoparty/app/routes/socket.py:385-399 | For a joined contestant the contestants become `UndoAnswerUpdate`, and otherwise nothing changes. |
| SocketHandlers.SocketHandler.EditContestantInfo | src/jeoparty/app/routes/socket.py:401-420 | For a joined contestant the contestants become `EditInfoUpdate`, and otherwise nothing changes. |
| SocketHandlers.SocketHandler.RewindUsed | src/jeoparty/app/routes/socket.py:314-322 | For a game contestant the contestants become `RewindUpdate`, and otherwise nothing changes. |
| SocketHandlers.SocketHandler.FirstTurn | src/jeoparty/app/routes/socket.py:268-283 | For a game contestant the contestants become `FirstTurnUpdate`, including its quirk. |
| SocketHandlers.SocketHandler.MakeDailyWager | src/jeoparty/app/routes/socket.py:433-450 | The outcome is `DailyWagerCheck` on the contestant's score and the game's round, and nothing is stored. |
| SocketHandlers.SocketHandler.MakeFinaleWager | src/jeoparty/app/routes/socket.py:452-474 | The outcome is `FinaleWagerCheck`, and only an accepted wager is stored as the contestant's `finale_wager`. |
| SocketHandlers.SocketHandler.GiveFinaleAnswer | src/jeoparty/app/routes/socket.py:476-487 | For a game contestant the contestants become `GiveFinaleAnswerUpdate`. |
| SocketHandlers.SocketHandler.FinaleAnswerCorrect | src/jeoparty/app/routes/socket.py:489-498 | For a game contestant the contestants become `FinaleCorrectUpdate`. |
| SocketHandlers.SocketHandler.FinaleAnswerWrong | src/jeoparty/app/routes/socket.py:500-509 | For a game contestant the contestants become `FinaleWrongUpdate`. |
| Progression.Retired | src/jeoparty/app/routes/presenter.py:152-157 | The previously active question becomes used and inactive. Every other question and every other field is unchanged. |
| Progression.RetiredLeavesNoneActive | src/jeoparty/app/routes/presenter.py:152-157 | With at most one active question, none is active after retiring it. |
| Progression.RetirePrevious | src/jeoparty/app/routes/presenter.py:152-157 | The route's first step returns the previously active question and leaves the questions as `Retired` says. Nothing else changes. |
| Progression.EmptyRoundNeverOver | src/jeoparty/app/routes/presenter.py:163-164 | A round without questions never counts as over. |
| Progression.LastQuestionEndsRound | src/jeoparty/app/routes/presenter.py:152-164 | Retiring the last unused question of the round ends the round. |
| Progression.LowestScorer | src/jeoparty/app/routes/presenter.py:179-185 | The running-minimum loop picks the first contestant with the lowest negative score, or the first contestant when no score is negative. |
| Progression.LowestScorerUnique | src/jeoparty/app/routes/presenter.py:179-185 | That choice is unique. |
| Progression.DailiesInRound | src/jeoparty/app/routes/presenter.py:210-211 | `(regular_rounds + 1) - (regular_rounds - (round - 1))` is just the round number. |
| Progression.FlagDailyDoubles | src/jeoparty/app/routes/presenter.py:207-214 | The loop over the shuffled round questions flags the first `dailies` of them as daily doubles and clears the flag on the rest. |
| Progression.AssignDailyDoubles | src/jeoparty/app/routes/presenter.py:206-216 | The round's questions, in shuffled order, get `daily_double = index < round`, and nothing else changes. |
| Progression.DailyDoubleCount | src/jeoparty/app/routes/presenter.py:206-216 | Exactly min(round, number of the round's questions) questions of the round end up flagged. |
| Progression.ClearUsed | src/jeoparty/app/routes/presenter.py:219-222 | Every power-up's `used` flag is cleared, and its type and `enabled` flag are kept. |
| Progression.ClearEnabled | src/jeoparty/app/routes/presenter.py:118-120 | Every power-up's `enabled` flag is cleared, and its type and `used` flag are kept. |
| Progression.ResetUsedPowerUps | src/jeoparty/app/routes/presenter.py:218-224 | Every contestant's power-ups become unused. Their `enabled` flags, everything else about the contestants, and the game are unchanged. |
| Progression.DisableAllPowerUps | src/jeoparty/app/routes/presenter.py:117-122 | Every contestant's power-ups become disabled. Their `used` flags and everything else are unchanged. |
| Progression.AdvanceRound | src/jeoparty/app/routes/presenter.py:162-201 | A round that is not over stays. An over round moves on by one. Past the regular rounds, a pack without a finale ends the game. With a finale the stage becomes `FINALE_WAGER`, the round rises to the pack's number of rounds when it is below it, and the round's first question becomes active; the source raises when there is none. A new regular round gives the turn to exactly the lowest scorer's entries; the source raises when there are no contestants. Nothing else changes. |
| Progression.PrepareRound | src/jeoparty/app/routes/presenter.py:204-224 | With daily doubles on, exactly min(round, number of questions) of the round's questions are flagged, and only that flag changes. Every power-up becomes unused. |
| Progression.SelectionRoute | src/jeoparty/app/routes/presenter.py:147-250 | The whole `selection` route marks the previously active question used. The round advances exactly when it is over. The route redirects to the endscreen exactly when the game ends without a finale. The stage is `FINALE_WAGER` exactly when the finale starts, and `SELECTION` otherwise. The route crashes exactly when a new regular round has no contestants, the finale round has no question, or (past those steps) the round to show is beyond the pack's rounds (`pack.rounds[round - 1]`, line 226); in that last case the turn, the daily doubles and the power-up reset are already applied. A new regular round gives the turn to exactly the lowest scorer's entries; otherwise turns are kept. The finale activates its first question. Otherwise it shows the selection board. When a regular round starts, exactly min(round, number of questions) daily doubles are flagged (with daily doubles on) and every power-up becomes unused; otherwise the questions are only retired and the power-ups are kept. `first_round` is computed as in the source. |
| Progression.QuestionStage | src/jeoparty/app/routes/presenter.py:114-115 | The stage becomes `FINALE_QUESTION` exactly when it was `FINALE_WAGER`, and `QUESTION` otherwise. |
| Progression.QuestionRoute | src/jeoparty/app/routes/presenter.py:87-124 | It redirects to selection exactly when no question is active or the active one is used, and then nothing changes. Otherwise it shows the active question, sets the stage as `QuestionStage` says and disables every power-up. |
| Progression.SaveGame | src/jeoparty/api/database.py:222-224 | `ended_at` is set to now exactly when the stage is `ENDED`. Nothing else changes. |
| Progression.StandingTotal | src/jeoparty/app/routes/presenter.py:323 | The standings order (descending score, then name) relates any two contestants. |
| Progression.StandingTransitive | src/jeoparty/app/routes/presenter.py:323 | The standings order is transitive. |
| Progression.InsertStanding | src/jeoparty/app/routes/presenter.py:323 | One insertion step of the standings sort keeps the same contestants plus the inserted one. |
| Progression.InsertStandingOrdered | src/jeoparty/app/routes/presenter.py:323 | Inserting into ordered standings keeps them ordered. |
| Progression.Standings | src/jeoparty/app/routes/presenter.py:322-323 | The standings are a permutation of the contestants. |
| Progression.StandingsOrdered | src/jeoparty/app/routes/presenter.py:322-323 | The standings are sorted by descending score, then by name. |
| Progression.BoldSpans | src/jeoparty/app/routes/presenter.py:311-313 | One bold coloured span per winner, in order. |
| Progression.WinnerDescription | src/jeoparty/app/routes/presenter.py:297-317 | A description exists exactly when there are winners. With none, the source's `winners[-1]` raises. |
| Progression.SpanMentionsName | src/jeoparty/app/routes/presenter.py:298-313 | A winner's span contains the winner's name. |
| Progression.NamedInTwo | src/jeoparty/app/routes/presenter.py:303-308 | The description of two winners names both. |
| Progression.NamedInMany | src/jeoparty/app/routes/presenter.py:310-317 | The description of more than two winners names every winner. |
| Progression.WinnerDescriptionNamesAll | src/jeoparty/app/routes/presenter.py:297-317 | Every winner is named in the description. |
| Progression.WinnerDescriptionForm | src/jeoparty/app/routes/presenter.py:297-317 | The description ends with a space and the locale's flavour text for one, two or many winners. |
| Progression.EndscreenRoute | src/jeoparty/app/routes/presenter.py:283-323 | The route sets stage `ENDED` and `ended_at`. The winners are exactly the top scorers in order, the standings are the contestants sorted by descending score and name, and the description is `WinnerDescription`. |
| PackStore.GetUpdateStatement | src/jeoparty/api/database.py:174-191 | None exactly when no non-key column differs. Otherwise the update is keyed by the old row's id and sets exactly the differing columns to their new values. |
| PackStore.UpdateReachesNewRow | src/jeoparty/api/database.py:174-191 | Applying the update to the old row gives the new row on every non-key column and keeps every other column. |
| PackStore.UnendedWithCode | src/jeoparty/api/database.py:93-94 | The count is 0 exactly when no unended game uses the code. |
| PackStore.UniqueJoinCode | src/jeoparty/api/database.py:91-98 | The code is unchanged when no unended game uses it. Otherwise it is the code, `_`, and the number of unended games using the code, written in plain decimal (digits only, no leading zero). |
| PackStore.JoinCodeRepeats | src/jeoparty/api/database.py:91-98 | The derived code is not unique: with unended games `c` and `c_1` it returns `c_1` again. |
| PackStore.QueuedMembers | src/jeoparty/api/database.py:312-350 | A deletion is queued exactly for each deleted entry that carries an id, in the right table. |
| PackStore.Partition | src/jeoparty/api/database.py:318-352 | The loop keeps exactly the surviving entries in order and queues exactly the deletions `Queued` describes. |
| PackStore.NormalExtra | src/jeoparty/api/database.py:380-381 | `extra == {}` is stored as None, and any other value is kept. |
| PackStore.PackColumns | src/jeoparty/api/database.py:298-301 | The pack row holds every posted non-list value except the id, with the stored creation time. |
| PackStore.QuestionsBatchShape | src/jeoparty/api/database.py:378-393 | The surviving questions are stored in order under their category, with `extra` normalised. |
| PackStore.CategoryBatchShape | src/jeoparty/api/database.py:343-366 | A surviving category is stored with its posted columns, its position as `order`, and its round's id. Its surviving questions are linked to it. |
| PackStore.CategoriesBatchShape | src/jeoparty/api/database.py:342-406 | The surviving categories of a round get `order` 0 to n-1 in input order. |
| PackStore.RoundBatchLinked | src/jeoparty/api/database.py:317-406 | A stored round holds exactly its surviving categories, linked to it and numbered by position. |
| PackStore.PackRoundsNumbered | src/jeoparty/api/database.py:308-408 | The surviving rounds are stored in input order and numbered 1, 2, 3, …; deleted rounds use no number. |
| PackStore.PackRoundsLinked | src/jeoparty/api/database.py:308-408 | Every stored round's categories and questions point at their parents, with categories ordered by position. |
| PackStore.CategoriesBatchDeletes | src/jeoparty/api/database.py:347-350 | A round's categories queue exactly their deleted questions that carry an id. |
| PackStore.RoundBatchDeletes | src/jeoparty/api/database.py:312-350 | A round queues itself when it is deleted and carries an id. Otherwise it queues exactly its deleted categories and the deleted questions of its surviving categories. |
| PackStore.PackDeletes | src/jeoparty/api/database.py:308-412 | The pack's delete queue is exactly what its rounds queue: a deleted round with an id, or the deleted categories and questions, with ids, inside a surviving round. |
| PackStore.QuestionsBatchNewIds | src/jeoparty/api/database.py:390-404 | One new-id entry per surviving question without an id, carrying its indices and its parents' ids. |
| PackStore.CategoryBatchNewIds | src/jeoparty/api/database.py:364-404 | A category reports itself when it is new, and then its new questions. |
| PackStore.CategoriesBatchNewIds | src/jeoparty/api/database.py:343-404 | A round's categories report exactly what each of them reports. |
| PackStore.RoundBatchNewIds | src/jeoparty/api/database.py:335-404 | A round reports itself when it is new, and then what its categories report. |
| PackStore.PackNewIds | src/jeoparty/api/database.py:308-404 | `new_ids` is exactly what the rounds report. |
| PackStore.PackRoundCreated | src/jeoparty/api/database.py:335-340 | A round is reported as created exactly when it survives and carries no id. |
| PackStore.SaveQuestions | src/jeoparty/api/database.py:378-404 | The question loop stores and reports what `QuestionsBatch` describes. |
| PackStore.SaveCategory | src/jeoparty/api/database.py:344-404 | One category's body stores and reports what `CategoryBatch` describes. |
| PackStore.SaveCategories | src/jeoparty/api/database.py:342-406 | The category loop stores and reports what `CategoriesBatch` describes. |
| PackStore.SaveRound | src/jeoparty/api/database.py:310-406 | One round's body stores, queues and reports what `RoundBatch` describes. |
| PackStore.UpdateQuestionPack | src/jeoparty/api/database.py:296-416 | The whole normalisation gives the pack row `PackColumns`, and the stored rounds, delete queue and `new_ids` that `PackBatch` describes. The lemmas above prove the numbering, ordering, deletion and new-id properties of that result. |
| PackEditor.FileExtension | src/jeoparty/app/static/js/question_pack.js:1078-1101 | jpeg, jpg and pjpeg give "jpg". apng and png give "png". gif and webp drop "image/". Video types are returned unchanged. Exactly the types outside the valid lists give null. |
| PackEditor.ImagePrefixRemoved | src/jeoparty/app/static/js/question_pack.js:1096 | Removing "image/" leaves a video type as it is and turns gif and webp into their bare names. |
| PackEditor.PickLetters | src/jeoparty/app/static/js/question_pack.js:1104-1108 | The loop builds 16 characters, each the letter at the drawn index. |
| PackEditor.GetRandomFilename | src/jeoparty/app/static/js/question_pack.js:1103-1117 | null exactly when the extension is null. Otherwise the name is 16 drawn letters, then ".", then the extension. |
| PackEditor.StoredHash | src/jeoparty/app/static/js/question_pack.js:110 | Reading `location.hash` back gives "" or a string starting with "#". |
| PackEditor.ParamsViewShape | src/jeoparty/app/static/js/question_pack.js:66-77 | A question view taken from the parameters has exactly three parts, none containing "-". |
| PackEditor.ParsedViewShape | src/jeoparty/app/static/js/question_pack.js:61-81 | `parseURLHash` only yields a question view of exactly three `-`-free parts. |
| PackEditor.RoundParamApplies | src/jeoparty/app/static/js/question_pack.js:74-76 | A `round_n` parameter sets the round view to n. |
| PackEditor.QuestionParamApplies | src/jeoparty/app/static/js/question_pack.js:68-73 | A `question_r-c-q` parameter sets the question view to `[r, c, q]`. |
| PackEditor.JoinedViewParam | src/jeoparty/app/static/js/question_pack.js:69-99 | The comma-joined question view that `setURLHash("round", …)` writes does not split into three parts, so re-parsing ignores it. |
| PackEditor.RoundHashRoundTrip | src/jeoparty/app/static/js/question_pack.js:61-111 | After `setURLHash("round", n)` the hash parses to round n and no question view, whatever the hash was. The question view is lost. |
| PackEditor.QuestionHashRoundTrip | src/jeoparty/app/static/js/question_pack.js:61-111 | After `setURLHash("question", "r-c-q")` the hash parses to `[r, c, q]` and keeps the round view. |
| PackEditor.QuestionHashCleared | src/jeoparty/app/static/js/question_pack.js:61-111 | After `setURLHash("question", null)` the hash parses to no question view and keeps the round view. |
| PackEditor.RankOfCandidate | src/jeoparty/app/static/js/question_pack.js:156-165 | The k-th name tried is recognised as the k-th. |
| PackEditor.FirstFreeNameUnique | src/jeoparty/app/static/js/question_pack.js:156-165 | The first free name is unique. |
| PackEditor.FirstFreeNameOfUnused | src/jeoparty/app/static/js/question_pack.js:156-165 | An unused name is its own first free name. |
| PackEditor.Editor.GetUniqueFilename | src/jeoparty/app/static/js/question_pack.js:156-165 | The loop returns the first of `f`, `f1`, `f2`, … that is not a key of `questionMedia`, so the result is never an existing key. |
| PackEditor.Place | src/jeoparty/app/static/js/question_pack.js:269-274 | Storing at index i appends when i is the length and overwrites entry i otherwise. All other entries are kept. |
| PackEditor.SyncedKeepsKeys | src/jeoparty/app/static/js/question_pack.js:186-200 | A synced question carries the form's question, answer and value, and keeps every other key it had. |
| PackEditor.MediaKeepsTips | src/jeoparty/app/static/js/question_pack.js:218-267 | Recording media leaves the tips alone. |
| PackEditor.SyncedTips | src/jeoparty/app/static/js/question_pack.js:212-216 | Only non-empty tips are kept. When every tip is empty, the stored tips are left as they were. |
| PackEditor.NewQuestionKeys | src/jeoparty/app/static/js/question_pack.js:193-233 | A new question has exactly the keys question, answer and value. Its media name is stored under `extra`. |
| PackEditor.EditQuestion | src/jeoparty/app/static/js/question_pack.js:186-216 | The text part of `syncQuestionData` builds the question `EditedQuestion` describes. |
| PackEditor.Editor.RecordQuestionMedia | src/jeoparty/app/static/js/question_pack.js:218-258 | A valid question file is stored under a first free name in `questionMedia`, and the question refers to it. |
| PackEditor.Editor.RecordAnswerMedia | src/jeoparty/app/static/js/question_pack.js:260-267 | An image answer file is stored under a first free name, and the question refers to it. |
| PackEditor.Editor.SyncQuestionData | src/jeoparty/app/static/js/question_pack.js:167-275 | The category's `buzz_time` takes the form's value, or 0 when the timer box is unchecked. An invalid question file stops the sync after the text edits: an existing question keeps those edits, a new one is not placed, and `questionMedia` is unchanged. Otherwise the question is appended or overwrites its slot, and its media are added under first free names. No existing media entry changes. |
| PackEditor.Editor.SyncCategoryData | src/jeoparty/app/static/js/question_pack.js:411-451 | A new category reads `defaultBuzzTime` before its declaration and throws, changing nothing. An existing one takes the name and, for an image file, a first free background name. |
| PackEditor.Editor.SyncRoundData | src/jeoparty/app/static/js/question_pack.js:551-563 | Appends a round when the index equals the length, and otherwise sets the round's name and number in place. |
| PackEditor.Editor.AddRound | src/jeoparty/app/static/js/question_pack.js:565-645 | A new round named "Round k" is appended at index `getNextId()`, and the hash shows it. |
| PackEditor.Editor.AddCategory | src/jeoparty/app/static/js/question_pack.js:453-515 | The first category of a round resets the round's categories. The sync of the new category then throws. |
| PackEditor.Editor.DeleteQuestion | src/jeoparty/app/static/js/question_pack.js:379-409 | An unconfirmed deletion stops and changes nothing. A confirmed deletion of a question on the page sets `deleted = true` and removes no entry. It nulls in `questionMedia` the media named under the question's own keys, which is the lookup as written (see the finding below). A question on the page without an entry in `questionData` throws before anything changes. |
| PackEditor.Editor.DeleteCategory | src/jeoparty/app/static/js/question_pack.js:517-549 | An unconfirmed deletion stops and changes nothing. A confirmed deletion of a category on the page sets `deleted = true` and nulls its background image. A category on the page without an entry in `questionData` throws before anything changes. When no category is left, the handler throws after the deletion, because `roundWrapper` is undeclared. |
| PackEditor.Editor.DeleteRound | src/jeoparty/app/static/js/question_pack.js:647-693 | Does nothing when only one round exists. Otherwise a round on the page gets `deleted = true` and nothing is removed. When the round was shown, the URL hash first switches to the round wrapper at the deleted button's own index, because `selectElem.length` is undefined. When no wrapper is left at that index, which happens when the last round was deleted, `getElementId` throws and nothing changes. A round without data throws when it is flagged. |
| PackEditor.Editor.ParseURLHash | src/jeoparty/app/static/js/question_pack.js:61-81 | The loop over the hash parameters returns the view `ParsedView` describes. An empty hash gives no view, and the last parameter of a kind wins. |
| PackEditor.Editor.SetURLHash | src/jeoparty/app/static/js/question_pack.js:83-111 | The hash becomes the string built from the key, the value and the parsed current view. The round-trip lemmas above say what it parses back to. |
| PackEditor.Editor.ShowRoundView | src/jeoparty/app/static/js/question_pack.js:38-54 | Afterwards the hash parses to the round alone. |
| PackEditor.Editor.ShowQuestionView | src/jeoparty/app/static/js/question_pack.js:1371-1399 | Showing a question makes the hash parse to its three ids with the round kept. Hiding clears the question view. A missing frame changes nothing. |
| PackEditor.DroppedMediaAsWritten | src/jeoparty/app/static/js/question_pack.js:392-402 | As written, the lookup checks top-level keys. It only ever nulls entries and keeps every key. |
| PackEditor.DroppedQuestionMedia | src/jeoparty/app/static/js/question_pack.js:392-402 | The corrected lookup reads the names from `extra`. It nulls the question image (or else the video) and the answer image when `questionMedia` holds them, and nothing else. |
| PackEditor.DeletedQuestionKeepsUpload | src/jeoparty/app/static/js/question_pack.js:379-409 | As written, deleting a just-synced new question leaves its question image queued for upload. The image name is stored under `extra` at line 233. |
| PackEditor.DeletedQuestionDropsUpload | src/jeoparty/app/static/js/question_pack.js:379-409 | With the corrected lookup, deleting that question nulls its uploaded image. The image name is stored under `extra` at line 233. |
| PackEditor.SetCategoryTwice | src/jeoparty/app/static/js/question_pack.js:418-450 | Writing a category twice keeps only the second write. |
| PackEditor.Rungs | src/jeoparty/app/static/js/question_pack.js:1474-1481 | The number of questions on their ladder rung is at most the number of questions. |
| PackEditor.DefaultQuestionValue | src/jeoparty/app/static/js/question_pack.js:1471-1483 | The loop gives `base × (1 + #{i : value_i == base × (i+1)})` with `base = 100 × (roundIndex + 1)`. It lies between base and base × (n + 1). |
| PackEditor.FullLadder | src/jeoparty/app/static/js/question_pack.js:1474-1481 | When every question sits on its rung, all of them count. |
| PackEditor.CompareValues | src/jeoparty/app/static/js/question_pack.js:1405-1411 | The comparator returns -1, 1 or 0 exactly when the first name is before, after or equal to the second in string order. |
| PackEditor.CompareValuesConsistent | src/jeoparty/app/static/js/question_pack.js:1405-1411 | The comparator is antisymmetric and transitive, so the sort is well defined. |
| PackEditor.TextOrderOfValues | src/jeoparty/app/static/js/question_pack.js:1405-1411 | Values are sorted as text: "1000" comes before "200". |
| PresenterEngine.StoppedNeverExpires | src/jeoparty/app/static/js/presenter.js:601-627 | A stopped countdown never ticks or expires. `stopCountdown` is at lines 480-490. |
| PresenterEngine.ExpiresOnce | src/jeoparty/app/static/js/presenter.js:601-627 | A running, unpaused countdown expires exactly once, on the first tick at or past its duration. A paused one does not change. |
| PresenterEngine.StartedExpiresAt | src/jeoparty/app/static/js/presenter.js:573-627 | A countdown started for d seconds expires once, after the first n ticks with 30·n ≥ 1000·d. |
| PresenterEngine.Ceil | src/jeoparty/app/static/js/presenter.js:348 | `Math.ceil`: the least integer not below x. |
| PresenterEngine.FullValueAwarded | src/jeoparty/app/static/js/presenter.js:333-348 | With no tips, no wrong choices and no hijack, the awarded value is the base value. |
| PresenterEngine.HijackBonusAwarded | src/jeoparty/app/static/js/presenter.js:344-348 | A hijack before the question awards `ceil(1.5 × value)`. |
| PresenterEngine.HijackBonusRoundsUp | src/jeoparty/app/static/js/presenter.js:344-348 | A hijacked 125-point question awards 188. |
| PresenterEngine.AwardedValueBounds | src/jeoparty/app/static/js/presenter.js:333-348 | Without hijack, tips and eliminated choices only lower the value. The award lies between 0 and the base value. |
| PresenterEngine.ScoreMovedBack | src/jeoparty/app/static/js/presenter.js:180-187 | Moving a score by d and then by -d restores the page. |
| PresenterEngine.StatMovedBack | src/jeoparty/app/static/js/presenter.js:189-196 | Moving a counter by d and then by -d restores the page. |
| PresenterEngine.CorrectAnswerCredits | src/jeoparty/app/static/js/presenter.js:325-375 | A correct answer credits the answerer with exactly the awarded value and one hit, and gives them the turn. It shows the correct indicator and clears the answer, the answerer and the power-up. |
| PresenterEngine.UndoRestores | src/jeoparty/app/static/js/presenter.js:198-228 | An undo moves the score by -activeValue after a correct answer and by +activeValue after a wrong one. It leaves hits and misses as displayed, makes the player the answerer again, restores the answer when given, and stops the countdown. |
| PresenterEngine.WrongAnswerCharges | src/jeoparty/app/static/js/presenter.js:386-432 | With an answerer, a wrong answer charges exactly the value and one miss. Without one nothing is charged. |
| PresenterEngine.CorrectThenUndo | src/jeoparty/app/static/js/presenter.js:198-228 | A correct answer followed by an undo restores every score and makes the same player the answerer again. The displayed hit count keeps the extra hit. `correctAnswer` is at lines 325-375. |
| PresenterEngine.WrongThenUndo | src/jeoparty/app/static/js/presenter.js:198-228 | A wrong answer followed by an undo restores every score and the answerer. The displayed miss count keeps the extra miss. `wrongAnswer` is at lines 386-459. |
| PresenterEngine.TimeoutChargesNobody | src/jeoparty/app/static/js/presenter.js:395-455 | When time runs out with nobody answering, no score or counter changes, and the answer is revealed without delay. |
| PresenterEngine.WrongAnswerReveal | src/jeoparty/app/static/js/presenter.js:434-458 | While eligible players remain, only `afterAnswer` runs. When everyone has answered, the answer is revealed at once unless the answerer still has rewind. In that case it is revealed after the grace exactly when rewind was not used. |
| PresenterEngine.BuzzOutcome | src/jeoparty/app/static/js/presenter.js:725-748 | A buzz is dropped, changing nothing, while a power-up other than hijack is active. Otherwise it is logged. A player who is eligible, with nobody answering or hijack active, becomes the answerer and loses eligibility. Anyone else leaves the answerer and eligibility as they were. |
| PresenterEngine.KeptCount | src/jeoparty/app/static/js/presenter.js:811-827 | The buzz log is kept up to and including the player's first entry, or whole when the player is absent. |
| PresenterEngine.ReenableMarks | src/jeoparty/app/static/js/presenter.js:815-826 | Re-enabling makes exactly the given ids eligible and leaves every other entry as it was. |
| PresenterEngine.RewindRefunds | src/jeoparty/app/static/js/presenter.js:797-830 | Rewind refunds the value and one miss, makes the player the answerer and stops the countdown. |
| PresenterEngine.RewindTruncates | src/jeoparty/app/static/js/presenter.js:811-829 | Rewind truncates the buzz log at the player's first entry and makes every later buzzer eligible. An absent player leaves the log and eligibility unchanged. |
| PresenterEngine.WrongThenRewind | src/jeoparty/app/static/js/presenter.js:797-830 | A rewind right after a wrong answer restores the player's score, hits and misses, and makes them the answerer again. `wrongAnswer` is at lines 386-432. |
| PresenterEngine.RebuildBuzzes | src/jeoparty/app/static/js/presenter.js:811-827 | The for-loop keeps the log up to the player's first buzz and re-enables everyone after it, as `KeptCount` and `Reenable` say. |
| PresenterEngine.AllSetTo | src/jeoparty/app/static/js/presenter.js:1039-1042 | Every listed id maps to the given flag, and no other id is present. |
| PresenterEngine.SetAll | src/jeoparty/app/static/js/presenter.js:1040-1042 | The forEach loop builds `AllSetTo`. |
| PresenterEngine.SoleEligible | src/jeoparty/app/static/js/presenter.js:856-860 | Hijack's eligibility map has every player id plus the hijacker, and only the hijacker is eligible. |
| PresenterEngine.HijackLeavesOnePlayer | src/jeoparty/app/static/js/presenter.js:850-880 | After hijack only the hijacker may answer. Mid-answer without a bonus, the hijacker takes over the answer and the countdown is stopped. Before the question, the answerer is kept. |
| PresenterEngine.FreezeHoldsCountdown | src/jeoparty/app/static/js/presenter.js:768-771 | After freeze the countdown is paused, and no number of ticks moves or expires it. `powerUpUsed` is at lines 882-897. |
| PresenterEngine.ShownQuestionEligibility | src/jeoparty/app/static/js/presenter.js:1037-1043 | On a fresh page, showing the question makes exactly the listed players eligible, unless it is a daily double. |
| PresenterEngine.DailyDoubleTurnHolderAnswers | src/jeoparty/app/static/js/presenter.js:1139-1143 | On a daily double the turn holder answers without buzzing in, and nobody may buzz in. A correct answer credits them exactly the awarded value and one hit, and they keep the turn. Off a daily double nobody is answering. |
| PresenterEngine.Presenter.constructor | src/jeoparty/app/static/js/presenter.js:1119-1143 | The page starts as `Initialized` says. Nobody is eligible, there are no buzzes and no countdown. It holds the given scores, counters, turn holder, answer and value. On a daily double the turn holder is the one answering; otherwise nobody is. |
| PresenterEngine.Presenter.StopCountdown | src/jeoparty/app/static/js/presenter.js:480-490 | The countdown is cleared and unpaused, and nothing else changes. |
| PresenterEngine.Presenter.PauseCountdown | src/jeoparty/app/static/js/presenter.js:492-496 | Only a running countdown takes the pause flag. Without a countdown nothing changes. |
| PresenterEngine.Presenter.StartCountdown | src/jeoparty/app/static/js/presenter.js:573-599 | The countdown restarts from 0, unpaused. |
| PresenterEngine.Presenter.Tick | src/jeoparty/app/static/js/presenter.js:601-627 | A paused tick changes nothing. An unpaused one adds 30 ms and reports expiry, stopping the countdown, on reaching the duration. |
| PresenterEngine.Presenter.AfterBuzzIn | src/jeoparty/app/static/js/presenter.js:703-723 | Stops the countdown and hides both answer indicators. |
| PresenterEngine.Presenter.UpdatePlayerScore | src/jeoparty/app/static/js/presenter.js:180-187 | Adds the delta to the player's score and nothing else. |
| PresenterEngine.Presenter.UpdatePlayerBuzzStats | src/jeoparty/app/static/js/presenter.js:189-196 | Adds the delta to the player's hit or miss counter and nothing else. |
| PresenterEngine.Presenter.AfterQuestion | src/jeoparty/app/static/js/presenter.js:264-281 | Clears the active answer. |
| PresenterEngine.Presenter.AfterAnswer | src/jeoparty/app/static/js/presenter.js:283-286 | Clears the answering player. |
| PresenterEngine.Presenter.CorrectAnswer | src/jeoparty/app/static/js/presenter.js:325-375 | Reassigning `activeValue` step by step (tips, choices, hijack, ceil) and scoring leaves the page as `Corrected` says. `CorrectAnswerCredits` and `CorrectThenUndo` prove what that means. |
| PresenterEngine.Presenter.ChargeWrongAnswer | src/jeoparty/app/static/js/presenter.js:395-432 | The scoring half of `wrongAnswer` leaves the page as `Charged` says. |
| PresenterEngine.Presenter.WrongAnswer | src/jeoparty/app/static/js/presenter.js:386-459 | Leaves the page as `Wronged` says and reports which of the three continuations applies. `WrongAnswerCharges`, `TimeoutChargesNobody` and `WrongAnswerReveal` prove what they mean. |
| PresenterEngine.Presenter.RewindGraceOver | src/jeoparty/app/static/js/presenter.js:449-454 | After the rewind grace, the answer is revealed exactly when rewind is not the active power-up. |
| PresenterEngine.Presenter.UndoAnswer | src/jeoparty/app/static/js/presenter.js:198-228 | Leaves the page as `Undone` says. See `UndoRestores`. |
| PresenterEngine.Presenter.PlayerBuzzedFirst | src/jeoparty/app/static/js/presenter.js:725-748 | Leaves the page as `Buzzed` says. See `BuzzOutcome`. |
| PresenterEngine.Presenter.OnRewindUsed | src/jeoparty/app/static/js/presenter.js:797-830 | Leaves the page as `Rewound` says. See `RewindRefunds` and `RewindTruncates`. |
| PresenterEngine.Presenter.AfterRewindUsed | src/jeoparty/app/static/js/presenter.js:832-834 | Runs `afterBuzzIn` for the answerer. |
| PresenterEngine.Presenter.OnHijackUsed | src/jeoparty/app/static/js/presenter.js:850-865 | Leaves the page as `Hijacked` says. See `HijackLeavesOnePlayer`. |
| PresenterEngine.Presenter.AfterHijackUsed | src/jeoparty/app/static/js/presenter.js:867-880 | Mid-answer without a bonus, the hijacker becomes the answerer and the countdown stays stopped. Otherwise the countdown is unpaused. |
| PresenterEngine.Presenter.AfterFreezeUsed | src/jeoparty/app/static/js/presenter.js:773-795 | When the freeze ends with someone answering, the countdown resumes. |
| PresenterEngine.Presenter.PowerUpUsed | src/jeoparty/app/static/js/presenter.js:882-918 | Sets the active power-up and runs the freeze, rewind or hijack handler. |
| PresenterEngine.Presenter.ShowQuestion | src/jeoparty/app/static/js/presenter.js:1037-1043 | Leaves the page as `QuestionShown` says. See `ShownQuestionEligibility`. |
| PresenterEngine.KeyIsNumericIff | src/jeoparty/app/static/js/presenter.js:475-478 | A key is numeric for min..max exactly when it is one of those numbers written out. |
| PresenterEngine.AnswerKeyWithChoices | src/jeoparty/app/static/js/presenter.js:502-550 | With choices, number key k picks choice k when it is still open, and is ignored otherwise. |
| PresenterEngine.AnswerKeyWithoutChoices | src/jeoparty/app/static/js/presenter.js:551-558 | Without choices, 1 grades correct, 2 grades wrong and 3 is ignored. |
| PresenterEngine.GradeChoice | src/jeoparty/app/static/js/presenter.js:521-531 | A picked choice is graded correct exactly when its text is the answer. |
| PresenterEngine.NextSelection | src/jeoparty/app/static/js/presenter.js:1207-1227 | From a box on the grid, or from none, the cursor stays on the grid. |
| PresenterEngine.LeftRightInverse | src/jeoparty/app/static/js/presenter.js:1210-1221 | ArrowRight and ArrowLeft undo each other on every box, wrapping around the grid. |
| PresenterEngine.UpDownInverse | src/jeoparty/app/static/js/presenter.js:1222-1227 | ArrowDown and ArrowUp undo each other away from the grid's ends. |
| PresenterEngine.TabulateCategorySelection | src/jeoparty/app/static/js/presenter.js:1193-1234 | The loop finds the first selected box, and the new index is `NextSelection` from it. It stays on the grid when the old selection was on it. |
| PresenterEngine.FinaleKey | src/jeoparty/app/static/js/presenter.js:1585-1618 | Keys 1 and 2 grade the finale wager correct or wrong unless the wager is 0, which is skipped. Other keys never grade. |
| PresenterEngine.FinaleWagerReported | src/jeoparty/app/static/js/presenter.js:1587-1611 | A non-zero wager is reported with its amount, and the locale's "nothing" is skipped. |
| PresenterEngine.AnimationOf | src/jeoparty/app/static/js/presenter.js:149-168 | The tier is small exactly below 500 and huge exactly from 1500. The animation shows a gain exactly for a non-negative delta. |
| PresenterEngine.TierMonotone | src/jeoparty/app/static/js/presenter.js:153-165 | A larger change never gets a smaller tier. |
| PresenterEngine.UndoAnimationMirrors | src/jeoparty/app/static/js/presenter.js:153-168 | Undoing a change plays the same tier with the opposite colour. |
| SharedRoutes.MergedPage | src/jeoparty/app/routes/shared.py:27-30 | The merged page has exactly the page's and the global keys, and global values win. |
| SharedRoutes.MergeIdempotent | src/jeoparty/app/routes/shared.py:28-29 | Merging again into the stored, already merged page changes nothing. |
| SharedRoutes.LocaleStore.GetLocaleData | src/jeoparty/app/routes/shared.py:25-32 | An unknown language gives None. Otherwise the result is the merged page, which is stored back in place when the page existed. |
| SharedRoutes.LocaleLookupTwice | src/jeoparty/app/routes/shared.py:25-32 | Looking a page up twice gives the same result. |
| SharedRoutes.FieldLabel | src/jeoparty/app/routes/shared.py:118 | The label replaces underscores by spaces and lower-cases everything after the first character. |
| SharedRoutes.ValidationErrorMsg | src/jeoparty/app/routes/shared.py:117-126 | The message starts with the quoted label. A pattern mismatch says "contains invalid characters", and any other kind than length appends "- msg". |
| SharedRoutes.LengthMessageDropsPrefix | src/jeoparty/app/routes/shared.py:123-124 | A length message drops its "String " prefix. |
| SharedRoutes.CoerceColumn | src/jeoparty/app/routes/shared.py:131-157 | A bool column maps "on" to True and "off" or missing to False. "" in a str column is omitted. An int column is parsed, raising exactly when `int()` fails. Missing values are omitted. |
| SharedRoutes.CoerceAllSucceeds | src/jeoparty/app/routes/shared.py:129-159 | The coercion succeeds exactly when no column raises. |
| SharedRoutes.CoerceAllFields | src/jeoparty/app/routes/shared.py:130-157 | On success the model data holds exactly the columns whose coercion keeps a value, each with that value. |
| SharedRoutes.CoerceForm | src/jeoparty/app/routes/shared.py:130-157 | The column loop fills the model data `CoerceAll` describes. |
| SharedRoutes.RaiseStaysRaised | src/jeoparty/app/routes/shared.py:129-157 | Once a column raises, the whole coercion fails. |
| SharedRoutes.CreateAndValidateModel | src/jeoparty/app/routes/shared.py:128-166 | The function crashes exactly when the coercion raises. It creates the model when validation finds nothing, and otherwise reports "Error when <action>: " and the joined messages. |
| SharedRoutes.ThemeSounds | src/jeoparty/app/routes/shared.py:59-78 | There is one path per theme sound of the requested kind, so the count equals the number of such sounds. A path is in the list exactly when some sound of that kind has it as `<theme dir>/sounds/<filename>`. |
| SharedRoutes.CorrectSound | src/jeoparty/app/routes/shared.py:56-70 | The correct sound is the default without a theme or without correct sounds, and otherwise one of the theme's. |
| SharedRoutes.Padded | src/jeoparty/app/routes/shared.py:84-86 | The wrong sounds are padded with the default up to the count, keeping the originals first. |
| SharedRoutes.WrongSounds | src/jeoparty/app/routes/shared.py:72-89 | The wrong-sound list has exactly `max_contestants` entries, each the default or one of the theme's. |
| SharedRoutes.WrongSoundsKeepTheme | src/jeoparty/app/routes/shared.py:84-89 | With no more theme sounds than contestants, every theme sound is kept and the rest are defaults. |
| SharedRoutes.WrongSoundsFromTheme | src/jeoparty/app/routes/shared.py:84-89 | With at least as many theme sounds as contestants, the entries are drawn from the theme's wrong sounds without replacement: as a multiset they are included in the theme's wrong sounds. |
| SharedRoutes.AnswerSounds | src/jeoparty/app/routes/shared.py:56-91 | The pair is the correct sound and exactly `max_contestants` wrong sounds. |
| SharedRoutes.ChosenName | src/jeoparty/app/routes/shared.py:175-192 | An empty name or a wrong extension fails with the source's message. With a default name that name is used. Otherwise the name is the first dot-part plus the lowercased extension, rejected when `secure_filename` empties it or the pattern fails. |
| SharedRoutes.SuffixesAccumulate | src/jeoparty/app/routes/shared.py:197-203 | Suffixes accumulate: `a.png` becomes `a_1.png` and then `a_1_2.png`. |
| SharedRoutes.RenameShape | src/jeoparty/app/routes/shared.py:199-201 | A renamed name has two dot-parts and grows. |
| SharedRoutes.FreeName | src/jeoparty/app/routes/shared.py:195-203 | The suffix loop returns the first candidate whose path does not exist, and the name itself when that is free. It raises when a candidate has no second dot-part. |
| SharedRoutes.ValidateFile | src/jeoparty/app/routes/shared.py:168-205 | Refused exactly when the name is refused, with its message. With overwrite allowed, or a free path, the path is returned as is. Otherwise it is the first free suffixed path, which does not exist; it raises when a suffixed name loses its second dot-part first. |
| LegacyShared.Convert | src/app/routes/shared.py:50-51 | `str()` always converts. `int()` keeps an int, and raises a TypeError exactly for None. |
| LegacyShared.ValidateParam | src/app/routes/shared.py:40-68 | A missing key gives "'Key' is required". A TypeError always says "a number". A value error is raised. Success comes exactly when the converted value or its length lies within the bounds inclusive, and returns the converted value. |
| LegacyShared.BoundsInclusive | src/app/routes/shared.py:56-66 | A value equal to either bound is accepted. |
| LegacyShared.BelowMinimumRejected | src/app/routes/shared.py:56-58 | A number below the minimum is rejected with "must be larger than". |
| LegacyShared.ContestantMetadata.constructor | src/app/routes/shared.py:10-14 | A new entry has ping 30 and no buzz. |
| LegacyShared.MetadataStore.GetContestantMetadata | src/app/routes/shared.py:26-35 | An existing entry is returned unchanged. A missing one is created with ping 30 and no buzz and stored under the game, creating the game's map if needed. |
| LegacyShared.LookupTwice | src/app/routes/shared.py:26-35 | A second call returns the same stored object. |
| Text.ParsePyIntOfIntToString | src/jeoparty/app/routes/socket.py:441-445 | Python's `int()` reads back every integer that `str()` writes. |
| Text.ParseJsIntHex | src/jeoparty/app/static/js/question_pack.js:75 | Without a radix, `Number.parseInt` reads `0x1A` in base 16 as 26. |
| Text.ParseJsIntBareHexPrefix | src/jeoparty/app/static/js/question_pack.js:75 | A bare `0x` with no hexadecimal digit after it is NaN. |
| Text.ParseJsIntOfIntToString | src/jeoparty/app/static/js/question_pack.js:75 | `Number.parseInt` reads back every integer a template literal writes. |

## Left out

- Rendering, CSS animation and audio or video playback are left out. So are the colour and font-size maths of the presenter page, the countdown bar's colours, and the splash videos of power-ups.
- Socket.IO transport, rooms, emits and reconnects are left out. The handlers' return values say what would be emitted.
- The `finale_answer_undo` emit has no server handler and is not modelled, and neither is the ctrl-z finale undo that sends it.
- Locks (`buzz_lock`, `power_lock`) and the latency `sleep` are left out: the handlers are serial methods.
- Ping estimation and wall-clock `time()` are left out. Buzz times and "now" are integer parameters.
- SQLAlchemy sessions, `save_models`, Flask routing, requests and cookies are left out, and so is the Int-Far post of the endscreen. Rendering of the route templates is reduced to the page each route chooses.
- JavaScript numbers and Python floats are idealised. `activeValue` and the scores are exact reals, so floating-point rounding of `activeValue * (1 / 2 ** tips)` and of the choice fraction is not modelled.
- Timers (`setTimeout`, `setInterval`) are explicit methods: `Tick`, `RewindGraceOver`, `AfterFreezeUsed`, `AfterHijackUsed` and `AfterRewindUsed`. A reveal scheduled with delay 0 is applied at once.
- The `window.onkeydown` bookkeeping is left out. `UndoAnswer` takes the player and the saved answer as parameters, and an undo with no player is not modelled.
- `afterAnswer`'s video and `questionAsked` continuation and the pausing and resuming of the question video are left out. `canPlayersBuzzIn` and the power-up enable and disable emits of the page are left out too.
- PresenterEngine.Presenter.UpdatePlayerBuzzStats: the counters are integer maps, so `parseInt` of the footer's text is not modelled.
- PresenterEngine.Presenter.AfterBuzzIn: `setPlayerTurn(id, false)` only highlights a footer entry and saves nothing, so it is not modelled.
- PresenterEngine.AnswerKey: `event.key == 1` is compared as the string "1", so loose equality with strings such as "1.0" is not modelled. No key event produces such a string.
- PresenterEngine.FinaleKey: the same strict comparison of the key with "1" and "2" is used.
- The page globals of `presenter.js` are held as one `PageState` record, not as separate variables.
- In the rewind loop, `activePlayers` is built in a local map and then assigned.
- The locale store holds only languages with page data. An empty locale dict, which Python treats as missing, is not modelled.
- `max_contestants` is a natural number.
- Python's list repr inside the `validate_file` message is modelled with single quotes and no escaping.
- `os.path.join(path, name)` is `path + "/" + name`. Every caller passes a relative name.
- `Config` paths and the theme folder layout are parameters.
- `secure_filename` and the name pattern are parameters.
- Empty or null ids in the editor's data are not modelled.
- Text.ParsePyInt does not accept non-ASCII digits, which Python's `int()` does. Its white space is exactly `str.isspace`'s set.
- PackEditor.ParsedView: percent-encoding of the URL hash by the browser is not modelled.
- PackEditor.CompareValues: strings are compared character by character, so characters outside the Basic Multilingual Plane (UTF-16 surrogate pairs) are not modelled.
- PackEditor.EditQuestion: the value text is stored as text. `Number()` conversions of value texts appear only in `DefaultQuestionValue`, as an optional integer per question.
- PackEditor.DefaultQuestionValue: `getElementIndex` returning null is not modelled. The round index is a natural number.
- PackEditor.Editor.DeleteRound: the button highlighting and the renumbering of the round headers are not modelled, because they only change the view. The wrappers left on the page and the deleted button's index are parameters.
- PackEditor.Editor.SyncCategoryData: `includeFinale` and `defaultBuzzTime` only matter after the throw, so they are not modelled.
- PackEditor.Editor.SyncQuestionData: media heights and border colours read from the DOM are left out. `questionMedia` values are file records; the null written by deletions is None.
- Handler lookups that the source does not check for None, such as `get_contestant(game_contestant_id=…)` followed by attribute access, raise in the source. In the model they are an unsuccessful outcome that changes nothing.
- `get_contestant(game_contestant_id=…)` does not match the signature at `models.py:317`. It is modelled as `get_game_contestant` (`models.py:327-335`).
- The legacy `src/app` and `src/api` trees are not part of this model, except `src/app/routes/shared.py`.
- The contestant and dashboard routes, the migrations, `config.py` and the UI scripts are not part of this model.

## Findings

| source | as written | input that shows it | evidently intended | confidence | as-written member | corrected member |
|---|---|---|---|---|---|---|
| src/jeoparty/app/static/js/question_pack.js:393-401 | `deleteQuestion` looks for `question_image`, `video` and `answer_image` among the question's top-level keys. `syncQuestionData` stores those names under `extra` (lines 233 and 264). | Sync a new question with a question image, then delete it. `questionMedia` still holds the file, so `saveData` uploads it (lines 800-804). | Read the media names from the question's `extra` and null them in `questionMedia`. | not executed | PackEditor.DeletedQuestionKeepsUpload | PackEditor.DeletedQuestionDropsUpload |
