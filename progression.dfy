/**
 * The presenter's page routes that move a game forward: `selection` (retire
 * the question just played, detect the end of a round, move to the next
 * round, the finale or the end screen, hand out the turn, daily doubles and
 * fresh power-ups), `question` (open the active question) and `endscreen`
 * (standings and the winner announcement), plus the `ended_at` rule the
 * database applies when a game is saved.
 *
 * `random.shuffle` is a parameter that picks, for every size, a permutation;
 * the clock is a parameter of `SaveGame`.
 */
module Progression {
  import opened Wrappers
  import opened SeqUtil
  import opened Text
  import opened Orm

  // ---------------------------------------------------------------------
  // The question just played.
  // ---------------------------------------------------------------------

  /** The questions once the active one (if any) has been marked used and inactive. */
  function Retired(questions: seq<GameQuestion>): (r: seq<GameQuestion>)
    ensures |r| == |questions|
    ensures forall i :: 0 <= i < |r| ==>
      r[i].questionId == questions[i].questionId && r[i].roundNumber == questions[i].roundNumber
      && r[i].value == questions[i].value && r[i].dailyDouble == questions[i].dailyDouble
    ensures GetActiveQuestion(questions).Some? ==>
      var k := GetActiveQuestion(questions).value; r[k].used && !r[k].active
    ensures forall i :: 0 <= i < |r| && GetActiveQuestion(questions) != Some(i) ==> r[i] == questions[i]
  {
    match GetActiveQuestion(questions)
    case None => questions
    case Some(k) => questions[k := questions[k].(used := true, active := false)]
  }

  /** With at most one active question, as the routes maintain, none is active once it is retired. */
  lemma RetiredLeavesNoneActive(questions: seq<GameQuestion>)
    requires forall j, k :: 0 <= j < k < |questions| && questions[j].active ==> !questions[k].active
    ensures GetActiveQuestion(Retired(questions)).None?
  {
    var r := Retired(questions);
    forall i | 0 <= i < |r|
      ensures !r[i].active
    {
      var first := GetActiveQuestion(questions);
      if first.Some? && first.value != i {
        if first.value < i {
          assert !questions[i].active;
        } else {
          assert !questions[i].active;
        }
      }
    }
  }

  /** `selection`: step 1, marking the active question used and inactive. */
  method RetirePrevious(game: Game) returns (previous: Option<nat>)
    modifies game
    ensures previous == old(GetActiveQuestion(game.questions))
    ensures game.questions == Retired(old(game.questions))
    ensures game.contestants == old(game.contestants) && game.round == old(game.round)
    ensures game.stage == old(game.stage) && game.endedAt == old(game.endedAt)
  {
    previous := GetActiveQuestion(game.questions);
    if previous.Some? {
      var k := previous.value;
      game.questions := game.questions[k := game.questions[k].(used := true, active := false)];
    }
  }

  // ---------------------------------------------------------------------
  // End of a round.
  // ---------------------------------------------------------------------

  /** `end_of_round`: the round has questions and every one of them is used. */
  predicate EndOfRound(roundQuestions: seq<GameQuestion>) {
    roundQuestions != [] && forall k :: 0 <= k < |roundQuestions| ==> roundQuestions[k].used
  }

  /** Whether `selection` finds round `round` finished once the question just played is retired. */
  predicate RoundOver(questions: seq<GameQuestion>, round: int) {
    EndOfRound(GetQuestionsForRound(Retired(questions), round))
  }

  /** A round without questions is never over, so the game stays in it. */
  lemma EmptyRoundNeverOver(questions: seq<GameQuestion>, round: int)
    requires forall k :: 0 <= k < |questions| ==> questions[k].roundNumber != round
    ensures !RoundOver(questions, round)
  {
    FilterAllFail(Retired(questions), InRound(round));
  }

  /** A round whose questions are all used, apart from the active one, is over. */
  lemma LastQuestionEndsRound(questions: seq<GameQuestion>, round: int, k: nat)
    requires GetActiveQuestion(questions) == Some(k) && questions[k].roundNumber == round
    requires forall i :: 0 <= i < |questions| && i != k && questions[i].roundNumber == round ==> questions[i].used
    ensures RoundOver(questions, round)
  {
    var r := Retired(questions);
    FilterMembers(r, InRound(round));
    var qs := GetQuestionsForRound(r, round);
    assert r[k] in qs;
    forall j | 0 <= j < |qs|
      ensures qs[j].used
    {
      assert qs[j] in r;
    }
  }

  // ---------------------------------------------------------------------
  // The turn at the start of a regular round.
  // ---------------------------------------------------------------------

  /** `i` is the first contestant with the lowest negative score, or 0 when no score is negative. */
  predicate IsLowestScorer(cs: seq<GameContestant>, i: nat) {
    i < |cs| &&
    if exists j :: 0 <= j < |cs| && cs[j].score < 0 then
      cs[i].score < 0
      && (forall j :: 0 <= j < |cs| ==> cs[i].score <= cs[j].score)
      && (forall j :: 0 <= j < i ==> cs[j].score > cs[i].score)
    else
      i == 0
  }

  /** The scan in `selection` that picks who gets the turn at a new regular round. */
  method LowestScorer(cs: seq<GameContestant>) returns (index: nat)
    requires |cs| > 0
    ensures IsLowestScorer(cs, index)
  {
    var lowest := 0;
    index := 0;
    var k := 0;
    while k < |cs|
      invariant 0 <= k <= |cs| && index < |cs| && lowest <= 0
      invariant forall j :: 0 <= j < k ==> cs[j].score >= lowest
      invariant lowest < 0 ==> index < k && cs[index].score == lowest
      invariant lowest == 0 ==> index == 0
      invariant forall j :: 0 <= j < index ==> cs[j].score > lowest
    {
      if cs[k].score < lowest {
        index := k;
        lowest := cs[k].score;
      }
      k := k + 1;
    }
  }

  /** The rule names a single contestant. */
  lemma LowestScorerUnique(cs: seq<GameContestant>, i: nat, j: nat)
    requires IsLowestScorer(cs, i) && IsLowestScorer(cs, j)
    ensures i == j
  {
  }

  // ---------------------------------------------------------------------
  // Daily doubles and power-ups of a new round.
  // ---------------------------------------------------------------------

  /** `dailies_in_round`, which for every round number reduces to the round number. */
  function DailiesInRound(regularRounds: int, round: int): (d: int)
    ensures d == round
  {
    var roundZero := round - 1;
    (regularRounds + 1) - (regularRounds - roundZero)
  }

  /**
   * How far the daily-double loop has got: `pos` are the positions of the
   * round's questions, `shuffle` the order of the shuffled copy (indices into
   * the round). The first `index` questions of that order carry their new flag
   * (daily double iff among the first `dailies`), the rest are untouched, and
   * so is every question outside the round.
   */
  predicate Flagged(before: seq<GameQuestion>, after: seq<GameQuestion>, pos: seq<nat>, shuffle: seq<nat>,
                    dailies: int, index: nat)
  {
    && |after| == |before|
    && index <= |shuffle| == |pos|
    && (forall k :: 0 <= k < |pos| ==> pos[k] < |before|)
    && (forall j :: 0 <= j < |shuffle| ==> shuffle[j] < |pos|)
    && (forall j :: 0 <= j < index ==> after[pos[shuffle[j]]] == before[pos[shuffle[j]]].(dailyDouble := j < dailies))
    && (forall j :: index <= j < |shuffle| ==> after[pos[shuffle[j]]] == before[pos[shuffle[j]]])
    && (forall i :: 0 <= i < |after| && i !in pos ==> after[i] == before[i])
  }

  /** Positions listed in ascending order, all inside the question list. */
  predicate ValidPositions(pos: seq<nat>, n: nat) {
    (forall k :: 0 <= k < |pos| ==> pos[k] < n) && (forall k, l :: 0 <= k < l < |pos| ==> pos[k] < pos[l])
  }

  lemma FlaggedStep(before: seq<GameQuestion>, after: seq<GameQuestion>, pos: seq<nat>, shuffle: seq<nat>,
                    dailies: int, index: nat)
    requires ValidPositions(pos, |before|) && IsPermutation(shuffle, |pos|)
    requires Flagged(before, after, pos, shuffle, dailies, index) && index < |shuffle|
    ensures var p := pos[shuffle[index]];
      Flagged(before, after[p := after[p].(dailyDouble := index < dailies)], pos, shuffle, dailies, index + 1)
  {
    var p := pos[shuffle[index]];
    var next := after[p := after[p].(dailyDouble := index < dailies)];
    forall j | 0 <= j < |shuffle| && j != index
      ensures pos[shuffle[j]] != p
    {
      assert shuffle[j] != shuffle[index];
    }
    assert p in pos;
  }

  /**
   * The daily-double loop of `selection` on the question list: the question
   * the shuffled copy lists `j`-th becomes a daily double iff `j < dailies`.
   */
  method FlagDailyDoubles(questions: seq<GameQuestion>, pos: seq<nat>, shuffle: seq<nat>, dailies: int)
    returns (r: seq<GameQuestion>)
    requires ValidPositions(pos, |questions|) && IsPermutation(shuffle, |pos|)
    ensures Flagged(questions, r, pos, shuffle, dailies, |shuffle|)
  {
    r := questions;
    var index := 0;
    while index < |shuffle|
      invariant Flagged(questions, r, pos, shuffle, dailies, index)
    {
      FlaggedStep(questions, r, pos, shuffle, dailies, index);
      var p := pos[shuffle[index]];
      r := r[p := r[p].(dailyDouble := index < dailies)];
      index := index + 1;
    }
  }

  /** `selection`'s daily doubles for the current round, with `shuffle` the shuffled copy's order. */
  method AssignDailyDoubles(game: Game, shuffle: seq<nat>)
    modifies game
    requires IsPermutation(shuffle, |RoundPositions(game.questions, game.round, 0)|)
    ensures game.contestants == old(game.contestants) && game.round == old(game.round)
    ensures game.stage == old(game.stage) && game.endedAt == old(game.endedAt)
    ensures Flagged(old(game.questions), game.questions, RoundPositions(old(game.questions), game.round, 0),
                    shuffle, game.round, |shuffle|)
  {
    var pos := RoundPositions(game.questions, game.round, 0);
    game.questions := FlagDailyDoubles(game.questions, pos, shuffle, DailiesInRound(game.regularRounds, game.round));
  }

  function Min(a: int, b: int): int {
    if a <= b then a else b
  }

  /** Positions (within round `round`) of the round's questions flagged as daily doubles. */
  function DailyDoublePositions(questions: seq<GameQuestion>, round: int): set<nat> {
    var pos := RoundPositions(questions, round, 0);
    set k | 0 <= k < |pos| && questions[pos[k]].dailyDouble
  }

  /** After the loop, every question differs from before in its daily-double flag at most. */
  lemma FlaggedOnlyDaily(before: seq<GameQuestion>, after: seq<GameQuestion>, pos: seq<nat>, shuffle: seq<nat>,
                         dailies: int)
    requires IsPermutation(shuffle, |pos|) && Flagged(before, after, pos, shuffle, dailies, |shuffle|)
    ensures |after| == |before|
    ensures forall i :: 0 <= i < |after| ==> after[i] == before[i].(dailyDouble := after[i].dailyDouble)
  {
    forall i | 0 <= i < |after|
      ensures after[i] == before[i].(dailyDouble := after[i].dailyDouble)
    {
      if i in pos {
        var k :| 0 <= k < |pos| && pos[k] == i;
        assert k in shuffle;
        var j :| 0 <= j < |shuffle| && shuffle[j] == k;
        assert after[pos[shuffle[j]]] == before[pos[shuffle[j]]].(dailyDouble := j < dailies);
      }
    }
  }

  /** After the loop, exactly `min(round, number of questions in the round)` daily doubles exist. */
  lemma {:induction false} DailyDoubleCount(before: seq<GameQuestion>, after: seq<GameQuestion>, round: int, shuffle: seq<nat>)
    requires round >= 0
    requires IsPermutation(shuffle, |RoundPositions(before, round, 0)|)
    requires Flagged(before, after, RoundPositions(before, round, 0), shuffle, round, |shuffle|)
    ensures |DailyDoublePositions(after, round)| == Min(round, |RoundPositions(after, round, 0)|)
  {
    var pos := RoundPositions(before, round, 0);
    FlaggedOnlyDaily(before, after, pos, shuffle, round);
    assert forall i :: 0 <= i < |after| ==> after[i].roundNumber == before[i].roundNumber;
    SamePositions(before, after, round, 0);
    assert forall j :: 0 <= j < |shuffle| ==> after[pos[shuffle[j]]].dailyDouble == (j < round);
    ChosenAreFlagged(after, round, pos, shuffle);
    PrefixImageSize(shuffle, Min(round, |pos|));
  }

  /** The flagged questions of the round are the first `round` the shuffle lists. */
  lemma ChosenAreFlagged(after: seq<GameQuestion>, round: int, pos: seq<nat>, shuffle: seq<nat>)
    requires pos == RoundPositions(after, round, 0)
    requires IsPermutation(shuffle, |pos|)
    requires forall j :: 0 <= j < |shuffle| ==> after[pos[shuffle[j]]].dailyDouble == (j < round)
    ensures DailyDoublePositions(after, round) == set j | 0 <= j < Min(round, |pos|) :: shuffle[j]
  {
    var m := Min(round, |pos|);
    var flagged := DailyDoublePositions(after, round);
    var chosen := set j | 0 <= j < m :: shuffle[j];
    forall k | k in flagged
      ensures k in chosen
    {
      assert k in shuffle;
      var j :| 0 <= j < |shuffle| && shuffle[j] == k;
      assert after[pos[shuffle[j]]].dailyDouble;
    }
    forall k | k in chosen
      ensures k in flagged
    {
      var j :| 0 <= j < m && shuffle[j] == k;
      assert after[pos[shuffle[j]]].dailyDouble;
    }
  }

  /** The round positions depend only on the round numbers of the questions. */
  lemma {:induction false} SamePositions(a: seq<GameQuestion>, b: seq<GameQuestion>, round: int, start: nat)
    requires |a| == |b| && start <= |a|
    requires forall i :: 0 <= i < |a| ==> a[i].roundNumber == b[i].roundNumber
    ensures RoundPositions(a, round, start) == RoundPositions(b, round, start)
    decreases |a| - start
  {
    if start < |a| {
      SamePositions(a, b, round, start + 1);
    }
  }

  /** Every power-up of the list, with `used` cleared. */
  method ClearUsed(powerUps: seq<GamePowerUp>) returns (r: seq<GamePowerUp>)
    ensures |r| == |powerUps|
    ensures forall j :: 0 <= j < |r| ==>
      !r[j].used && r[j].kind == powerUps[j].kind && r[j].enabled == powerUps[j].enabled
  {
    r := powerUps;
    var j := 0;
    while j < |r|
      invariant 0 <= j <= |r| == |powerUps|
      invariant forall i :: 0 <= i < |r| ==> r[i].kind == powerUps[i].kind && r[i].enabled == powerUps[i].enabled
      invariant forall i :: 0 <= i < j ==> !r[i].used
    {
      r := r[j := r[j].(used := false)];
      j := j + 1;
    }
  }

  /** Every power-up of the list, with `enabled` cleared. */
  method ClearEnabled(powerUps: seq<GamePowerUp>) returns (r: seq<GamePowerUp>)
    ensures |r| == |powerUps|
    ensures forall j :: 0 <= j < |r| ==>
      !r[j].enabled && r[j].kind == powerUps[j].kind && r[j].used == powerUps[j].used
  {
    r := powerUps;
    var j := 0;
    while j < |r|
      invariant 0 <= j <= |r| == |powerUps|
      invariant forall i :: 0 <= i < |r| ==> r[i].kind == powerUps[i].kind && r[i].used == powerUps[i].used
      invariant forall i :: 0 <= i < j ==> !r[i].enabled
    {
      r := r[j := r[j].(enabled := false)];
      j := j + 1;
    }
  }

  /** `b` is `a` with each contestant's power-ups replaced by a list of the same kinds. */
  predicate SameButPowerUps(a: seq<GameContestant>, b: seq<GameContestant>) {
    |a| == |b|
    && forall i :: 0 <= i < |a| ==>
         b[i] == a[i].(powerUps := b[i].powerUps) && |b[i].powerUps| == |a[i].powerUps|
  }

  /** The loop of `selection` that makes every power-up of every contestant usable again. */
  method ResetUsedPowerUps(game: Game)
    modifies game
    ensures SameButPowerUps(old(game.contestants), game.contestants)
    ensures forall i, j :: 0 <= i < |game.contestants| && 0 <= j < |game.contestants[i].powerUps| ==>
      var p, o := game.contestants[i].powerUps[j], old(game.contestants)[i].powerUps[j];
      !p.used && p.kind == o.kind && p.enabled == o.enabled
    ensures game.questions == old(game.questions) && game.round == old(game.round)
    ensures game.stage == old(game.stage) && game.endedAt == old(game.endedAt)
  {
    var i := 0;
    while i < |game.contestants|
      invariant 0 <= i <= |game.contestants|
      invariant SameButPowerUps(old(game.contestants), game.contestants)
      invariant forall k, j :: 0 <= k < i && 0 <= j < |game.contestants[k].powerUps| ==>
        var p, o := game.contestants[k].powerUps[j], old(game.contestants)[k].powerUps[j];
        !p.used && p.kind == o.kind && p.enabled == o.enabled
      invariant forall k :: i <= k < |game.contestants| ==> game.contestants[k] == old(game.contestants)[k]
      invariant game.questions == old(game.questions) && game.round == old(game.round)
      invariant game.stage == old(game.stage) && game.endedAt == old(game.endedAt)
    {
      var cleared := ClearUsed(game.contestants[i].powerUps);
      game.contestants := game.contestants[i := game.contestants[i].(powerUps := cleared)];
      i := i + 1;
    }
  }

  /** The loop of `question` that switches off every power-up of every contestant. */
  method DisableAllPowerUps(game: Game)
    modifies game
    ensures SameButPowerUps(old(game.contestants), game.contestants)
    ensures forall i, j :: 0 <= i < |game.contestants| && 0 <= j < |game.contestants[i].powerUps| ==>
      var p, o := game.contestants[i].powerUps[j], old(game.contestants)[i].powerUps[j];
      !p.enabled && p.kind == o.kind && p.used == o.used
    ensures game.questions == old(game.questions) && game.round == old(game.round)
    ensures game.stage == old(game.stage) && game.endedAt == old(game.endedAt)
  {
    var i := 0;
    while i < |game.contestants|
      invariant 0 <= i <= |game.contestants|
      invariant SameButPowerUps(old(game.contestants), game.contestants)
      invariant forall k, j :: 0 <= k < i && 0 <= j < |game.contestants[k].powerUps| ==>
        var p, o := game.contestants[k].powerUps[j], old(game.contestants)[k].powerUps[j];
        !p.enabled && p.kind == o.kind && p.used == o.used
      invariant forall k :: i <= k < |game.contestants| ==> game.contestants[k] == old(game.contestants)[k]
      invariant game.questions == old(game.questions) && game.round == old(game.round)
      invariant game.stage == old(game.stage) && game.endedAt == old(game.endedAt)
    {
      var cleared := ClearEnabled(game.contestants[i].powerUps);
      game.contestants := game.contestants[i := game.contestants[i].(powerUps := cleared)];
      i := i + 1;
    }
  }

  // ---------------------------------------------------------------------
  // The selection route.
  // ---------------------------------------------------------------------

  /** What `selection` decides once the question just played is retired. */
  datatype Advance =
    | SameRound          // the round still has unused questions (or none at all)
    | NewRegularRound    // the next regular round starts
    | FinaleRound        // the finale starts
    | GameOver           // the last regular round is over and the pack has no finale
    | NoContestants      // an IndexError: nobody to give the turn to
    | NoFinaleQuestion   // an IndexError: the finale round has no question

  /** The round `selection` moves to from round `round` when that round is over. */
  function RoundAfter(round: int, regularRounds: int, pack: QuestionPack): int {
    if round + 1 > regularRounds && pack.includeFinale && round + 1 < |pack.rounds| then |pack.rounds|
    else round + 1
  }

  /**
   * The end-of-round branch of `selection`: the round moves on only when all
   * its questions are used; a new regular round gives the turn to the lowest
   * scorer; past the regular rounds the game either ends or enters the
   * finale, whose first question becomes active.
   */
  method AdvanceRound(game: Game) returns (advance: Advance)
    modifies game
    ensures var over := EndOfRound(GetQuestionsForRound(old(game.questions), old(game.round)));
      var past := old(game.round) + 1 > game.regularRounds;
      && (advance == SameRound <==> !over)
      && (advance == GameOver <==> over && past && !game.pack.includeFinale)
      && (advance == NoContestants <==> over && !past && old(game.contestants) == [])
      && (advance == NewRegularRound <==> over && !past && old(game.contestants) != [])
      && (advance == FinaleRound || advance == NoFinaleQuestion <==> over && past && game.pack.includeFinale)
    ensures game.round == (if advance == SameRound then old(game.round)
                           else RoundAfter(old(game.round), game.regularRounds, game.pack))
    ensures game.stage == (if advance == FinaleRound || advance == NoFinaleQuestion then FinaleWager else old(game.stage))
    ensures game.endedAt == old(game.endedAt)
    ensures advance != NewRegularRound ==> game.contestants == old(game.contestants)
    ensures advance == NewRegularRound ==>
      SameButTurn(old(game.contestants), game.contestants)
      && exists w: nat :: IsLowestScorer(old(game.contestants), w) && TurnGivenTo(old(game.contestants), game.contestants, w)
    ensures advance == NoFinaleQuestion <==>
      (advance == FinaleRound || advance == NoFinaleQuestion) && FirstIndex(old(game.questions), InRound(game.round)).None?
    ensures advance != FinaleRound ==> game.questions == old(game.questions)
    ensures advance == FinaleRound ==>
      var first := FirstIndex(old(game.questions), InRound(game.round)).value;
      game.questions == old(game.questions)[first := old(game.questions)[first].(active := true)]
  {
    var endOfRound := EndOfRound(GetQuestionsForRound(game.questions, game.round));
    if !endOfRound {
      return SameRound;
    }
    game.round := game.round + 1;
    if game.round <= game.regularRounds {
      if |game.contestants| == 0 {
        return NoContestants;
      }
      var w := LowestScorer(game.contestants);
      ghost var contestants0 := game.contestants;
      game.SetContestantTurn(game.contestants[w].contestant.id);
      assert IsLowestScorer(contestants0, w);
      return NewRegularRound;
    }
    if !game.pack.includeFinale {
      return GameOver;
    }
    game.stage := FinaleWager;
    if game.round < |game.pack.rounds| {
      game.round := |game.pack.rounds|;
    }
    var first := FirstIndex(game.questions, InRound(game.round));
    if first.None? {
      return NoFinaleQuestion;
    }
    game.questions := game.questions[first.value := game.questions[first.value].(active := true)];
    advance := FinaleRound;
  }

  /**
   * The start of a round in `selection`: daily doubles when the game uses
   * them (`shuffle(n)` is the order `random.shuffle` gives a copy of `n`
   * questions) and every power-up usable again.
   */
  method PrepareRound(game: Game, shuffle: nat -> seq<nat>)
    modifies game
    requires forall n :: IsPermutation(shuffle(n), n)
    requires game.round >= 1
    ensures game.round == old(game.round) && game.stage == old(game.stage) && game.endedAt == old(game.endedAt)
    ensures |game.questions| == |old(game.questions)|
    ensures forall i :: 0 <= i < |game.questions| ==>
      game.questions[i] == old(game.questions)[i].(dailyDouble := game.questions[i].dailyDouble)
    ensures !game.useDailyDoubles ==> game.questions == old(game.questions)
    ensures game.useDailyDoubles ==>
      |DailyDoublePositions(game.questions, game.round)| == Min(game.round, |RoundPositions(game.questions, game.round, 0)|)
    ensures SameButPowerUps(old(game.contestants), game.contestants)
    ensures SameButTurnAndPowerUps(old(game.contestants), game.contestants)
            && PowerUpsReset(old(game.contestants), game.contestants)
  {
    if game.useDailyDoubles {
      ghost var before := game.questions;
      var n := |RoundPositions(game.questions, game.round, 0)|;
      AssignDailyDoubles(game, shuffle(n));
      DailyDoubleCount(before, game.questions, game.round, shuffle(n));
      FlaggedOnlyDaily(before, game.questions, RoundPositions(before, game.round, 0), shuffle(n), game.round);
    }
    ResetUsedPowerUps(game);
  }

  /** Where `selection` sends the presenter. */
  datatype SelectionPage =
    | ToEndscreen                       // the last regular round is over and there is no finale
    | ShowSelection(firstRound: bool)   // the selection board of `game.round`
    | Crashed                           // an IndexError: no contestants, no finale question, or a round the pack lacks

  /** The contestants differ from `before` in their turn flags at most. */
  predicate SameButTurn(before: seq<GameContestant>, after: seq<GameContestant>) {
    |after| == |before|
    && forall i :: 0 <= i < |after| ==> after[i] == before[i].(hasTurn := after[i].hasTurn)
  }

  /** The contestants differ from `before` in their turn flags and power-ups at most. */
  predicate SameButTurnAndPowerUps(before: seq<GameContestant>, after: seq<GameContestant>) {
    |after| == |before|
    && forall i :: 0 <= i < |after| ==>
         after[i] == before[i].(hasTurn := after[i].hasTurn, powerUps := after[i].powerUps)
         && |after[i].powerUps| == |before[i].powerUps|
  }

  /** After `set_contestant_turn`, exactly the entries of `before[w]`'s contestant hold the turn. */
  predicate TurnGivenTo(before: seq<GameContestant>, after: seq<GameContestant>, w: nat) {
    w < |before| && |after| == |before|
    && forall i :: 0 <= i < |after| ==> (after[i].hasTurn <==> before[i].contestant.id == before[w].contestant.id)
  }

  /** Every power-up is unused again, its kind and enabled flag kept. */
  predicate PowerUpsReset(before: seq<GameContestant>, after: seq<GameContestant>)
    requires SameButTurnAndPowerUps(before, after)
  {
    forall i, j :: 0 <= i < |after| && 0 <= j < |after[i].powerUps| ==>
      var p, o := after[i].powerUps[j], before[i].powerUps[j];
      !p.used && p.kind == o.kind && p.enabled == o.enabled
  }

  /**
   * A turn handed out and then the power-ups reset: together the contestants
   * changed in turn flags and power-ups only, the power-ups are reset and
   * the turn flags are those of the hand-out.
   */
  lemma TurnThenReset(c0: seq<GameContestant>, c1: seq<GameContestant>, c2: seq<GameContestant>)
    requires SameButTurn(c0, c1)
    requires SameButPowerUps(c1, c2) && SameButTurnAndPowerUps(c1, c2) && PowerUpsReset(c1, c2)
    ensures SameButTurnAndPowerUps(c0, c2) && PowerUpsReset(c0, c2)
    ensures forall i :: 0 <= i < |c2| ==> c2[i].hasTurn == c1[i].hasTurn
    ensures forall w: nat :: TurnGivenTo(c0, c1, w) ==> TurnGivenTo(c0, c2, w)
  {
  }

  /**
   * The `selection` route gets past its end-of-round and finale steps: it
   * neither ends the game nor fails on an empty contestant list or a finale
   * round without questions.
   */
  predicate PastRoundSteps(questions: seq<GameQuestion>, round: int, contestants: seq<GameContestant>,
                           regularRounds: int, pack: QuestionPack)
  {
    var over, past := RoundOver(questions, round), round + 1 > regularRounds;
    !(over && past && !pack.includeFinale)
    && !(over && !past && contestants == [])
    && !(over && past && pack.includeFinale
         && FirstIndex(Retired(questions), InRound(RoundAfter(round, regularRounds, pack))).None?)
  }

  /**
   * The state changes of the `selection` route: the retirement of the
   * question just played, the move to the next round with the lowest
   * scorer's turn or the finale's question, and, when a regular round
   * starts, the daily doubles and the power-up reset.
   */
  method SelectionRoute(game: Game, shuffle: nat -> seq<nat>) returns (page: SelectionPage)
    modifies game
    requires forall n :: IsPermutation(shuffle(n), n)
    requires game.round >= 1
    ensures |game.questions| == |old(game.questions)|
    ensures old(GetActiveQuestion(game.questions)).Some? ==>
      game.questions[old(GetActiveQuestion(game.questions)).value].used
    ensures !RoundOver(old(game.questions), old(game.round)) ==> game.round == old(game.round)
    ensures RoundOver(old(game.questions), old(game.round)) ==>
      game.round == RoundAfter(old(game.round), game.regularRounds, game.pack)
    ensures page.ToEndscreen? <==>
      RoundOver(old(game.questions), old(game.round)) && old(game.round) + 1 > game.regularRounds && !game.pack.includeFinale
    ensures game.stage == FinaleWager <==>
      RoundOver(old(game.questions), old(game.round)) && old(game.round) + 1 > game.regularRounds && game.pack.includeFinale
    ensures game.stage != FinaleWager ==> game.stage == Stage.Selection
    ensures page.ShowSelection? ==>
      (page.firstRound <==>
         old(GetActiveQuestion(game.questions)).None? && game.round == 1 && GetContestantWithTurn(game.contestants).None?)
    // the three IndexErrors: no contestant to hand the turn to, no finale
    // question, and a round the pack does not have
    ensures page.Crashed? <==>
      var over, past := RoundOver(old(game.questions), old(game.round)), old(game.round) + 1 > game.regularRounds;
      (over && ((!past && old(game.contestants) == [])
                || (past && game.pack.includeFinale && FirstIndex(Retired(old(game.questions)), InRound(game.round)).None?)))
      || (PastRoundSteps(old(game.questions), old(game.round), old(game.contestants), game.regularRounds, game.pack)
          && game.round > |game.pack.rounds|)
    ensures page.ShowSelection? <==>
      PastRoundSteps(old(game.questions), old(game.round), old(game.contestants), game.regularRounds, game.pack)
      && game.round <= |game.pack.rounds|
    // the turn
    ensures SameButTurnAndPowerUps(old(game.contestants), game.contestants)
    ensures RoundOver(old(game.questions), old(game.round)) && old(game.round) + 1 <= game.regularRounds
            && old(game.contestants) != [] ==>
      exists w: nat :: IsLowestScorer(old(game.contestants), w) && TurnGivenTo(old(game.contestants), game.contestants, w)
    ensures !(RoundOver(old(game.questions), old(game.round)) && old(game.round) + 1 <= game.regularRounds) ==>
      forall i :: 0 <= i < |game.contestants| ==> game.contestants[i].hasTurn == old(game.contestants)[i].hasTurn
    // the finale's question
    ensures PastRoundSteps(old(game.questions), old(game.round), old(game.contestants), game.regularRounds, game.pack)
            && game.stage == FinaleWager ==>
      var first := FirstIndex(Retired(old(game.questions)), InRound(game.round)).value;
      game.questions == Retired(old(game.questions))[first := Retired(old(game.questions))[first].(active := true)]
    // the start of a regular round: daily doubles and power-ups
    ensures var reached := PastRoundSteps(old(game.questions), old(game.round), old(game.contestants), game.regularRounds, game.pack);
      var starts := reached && game.stage != FinaleWager
              && (old(GetActiveQuestion(game.questions)).None? || RoundOver(old(game.questions), old(game.round)));
      && (starts ==> PowerUpsReset(old(game.contestants), game.contestants))
      && (starts ==> forall i :: 0 <= i < |game.questions| ==>
            game.questions[i] == Retired(old(game.questions))[i].(dailyDouble := game.questions[i].dailyDouble))
      && (starts && game.useDailyDoubles ==>
            |DailyDoublePositions(game.questions, game.round)|
            == Min(game.round, |RoundPositions(game.questions, game.round, 0)|))
      && (starts && !game.useDailyDoubles ==> game.questions == Retired(old(game.questions)))
      && (reached && !starts ==>
            (forall i :: 0 <= i < |game.contestants| ==> game.contestants[i].powerUps == old(game.contestants)[i].powerUps))
      && (reached && !starts && game.stage != FinaleWager ==> game.questions == Retired(old(game.questions)))
  {
    ghost var c0 := game.contestants;
    var previous := RetirePrevious(game);
    game.stage := Stage.Selection;
    var advance := AdvanceRound(game);
    assert SameButTurn(c0, game.contestants);
    if advance == GameOver {
      page := ToEndscreen;
    } else if advance == NoContestants || advance == NoFinaleQuestion {
      page := Crashed;
    } else {
      var firstRound := previous.None? && game.round == 1 && GetContestantWithTurn(game.contestants).None?;
      if previous.None? || advance == NewRegularRound {
        if advance != FinaleRound {
          ghost var c1 := game.contestants;
          PrepareRound(game, shuffle);
          TurnThenReset(c0, c1, game.contestants);
        }
      }
      // the selection board is read from the pack's rounds
      page := if game.round > |game.pack.rounds| then Crashed else ShowSelection(firstRound);
    }
  }

  // ---------------------------------------------------------------------
  // The question route.
  // ---------------------------------------------------------------------

  datatype QuestionPage = BackToSelection | ShowQuestion(question: nat)

  /** The stage `question` moves to: the finale question after the finale wager, a regular question otherwise. */
  function QuestionStage(stage: Stage): (s: Stage)
    ensures s == FinaleQuestion <==> stage == FinaleWager
    ensures s != FinaleQuestion ==> s == Stage.Question
  {
    if stage == FinaleWager then FinaleQuestion else Stage.Question
  }

  /** The state changes of the `question` route. */
  method QuestionRoute(game: Game) returns (page: QuestionPage)
    modifies game
    ensures page.BackToSelection? <==>
      old(GetActiveQuestion(game.questions)).None? || old(game.questions)[old(GetActiveQuestion(game.questions)).value].used
    ensures page.BackToSelection? ==>
      game.contestants == old(game.contestants) && game.stage == old(game.stage)
    ensures page.ShowQuestion? ==>
      Some(page.question) == old(GetActiveQuestion(game.questions))
      && game.stage == QuestionStage(old(game.stage))
      && SameButPowerUps(old(game.contestants), game.contestants)
      && forall i, j :: 0 <= i < |game.contestants| && 0 <= j < |game.contestants[i].powerUps| ==>
           !game.contestants[i].powerUps[j].enabled
           && game.contestants[i].powerUps[j].used == old(game.contestants)[i].powerUps[j].used
    ensures game.questions == old(game.questions) && game.round == old(game.round) && game.endedAt == old(game.endedAt)
  {
    var active := GetActiveQuestion(game.questions);
    if active.None? || game.questions[active.value].used {
      return BackToSelection;
    }
    game.stage := QuestionStage(game.stage);
    DisableAllPowerUps(game);
    page := ShowQuestion(active.value);
  }

  // ---------------------------------------------------------------------
  // The end screen and saving a game.
  // ---------------------------------------------------------------------

  /** `save_game`: the end time is stamped exactly when the game has ended. */
  method SaveGame(game: Game, now: int)
    modifies game
    ensures game.endedAt == (if game.stage == Ended then Some(now) else old(game.endedAt))
    ensures game.stage == old(game.stage) && game.round == old(game.round)
    ensures game.contestants == old(game.contestants) && game.questions == old(game.questions)
  {
    if game.stage == Ended {
      game.endedAt := Some(now);
    }
  }

  /** The standings order: higher score first, then the name in code-point order. */
  predicate StandingBefore(a: GameContestant, b: GameContestant) {
    a.score > b.score || (a.score == b.score && !LexLess(b.contestant.name, a.contestant.name))
  }

  lemma StandingTotal(a: GameContestant, b: GameContestant)
    ensures StandingBefore(a, b) || StandingBefore(b, a)
  {
    if a.score == b.score && LexLess(b.contestant.name, a.contestant.name) {
      LexLessAsymmetric(b.contestant.name, a.contestant.name);
    }
  }

  lemma StandingTransitive(a: GameContestant, b: GameContestant, c: GameContestant)
    requires StandingBefore(a, b) && StandingBefore(b, c)
    ensures StandingBefore(a, c)
  {
    if a.score == b.score && b.score == c.score {
      var x, y, z := a.contestant.name, b.contestant.name, c.contestant.name;
      LexLessTotal(x, y);
      LexLessTotal(y, z);
      if x != y && y != z {
        LexLessTransitive(x, y, z);
        LexLessAsymmetric(x, z);
      }
    }
  }

  predicate InStandingOrder(s: seq<GameContestant>) {
    forall j, k :: 0 <= j < k < |s| ==> StandingBefore(s[j], s[k])
  }

  function InsertStanding(c: GameContestant, sorted: seq<GameContestant>): (r: seq<GameContestant>)
    ensures multiset(r) == multiset(sorted) + multiset{c}
  {
    if sorted == [] then [c]
    else if StandingBefore(c, sorted[0]) then [c] + sorted
    else
      assert sorted == [sorted[0]] + sorted[1..];
      [sorted[0]] + InsertStanding(c, sorted[1..])
  }

  /** Inserting a contestant the head stands before, behind the head, keeps the head ahead of everyone. */
  lemma HeadStaysFirst(c: GameContestant, sorted: seq<GameContestant>)
    requires InStandingOrder(sorted) && |sorted| > 0 && StandingBefore(sorted[0], c)
    ensures forall k :: 0 <= k < |InsertStanding(c, sorted[1..])| ==>
      StandingBefore(sorted[0], InsertStanding(c, sorted[1..])[k])
  {
    var rest := InsertStanding(c, sorted[1..]);
    forall k | 0 <= k < |rest|
      ensures StandingBefore(sorted[0], rest[k])
    {
      assert rest[k] in multiset(rest);
      if rest[k] != c {
        assert rest[k] in sorted[1..];
      }
    }
  }

  lemma {:induction false} InsertStandingOrdered(c: GameContestant, sorted: seq<GameContestant>)
    requires InStandingOrder(sorted)
    ensures InStandingOrder(InsertStanding(c, sorted))
  {
    if sorted == [] {
    } else if StandingBefore(c, sorted[0]) {
      var s := [c] + sorted;
      forall j, k | 0 <= j < k < |s|
        ensures StandingBefore(s[j], s[k])
      {
        if j == 0 && k > 1 {
          StandingTransitive(c, sorted[0], sorted[k - 1]);
        }
      }
    } else {
      var rest := InsertStanding(c, sorted[1..]);
      InsertStandingOrdered(c, sorted[1..]);
      StandingTotal(c, sorted[0]);
      HeadStaysFirst(c, sorted);
      var s := [sorted[0]] + rest;
      forall j, k | 0 <= j < k < |s|
        ensures StandingBefore(s[j], s[k])
      {
        if j > 0 {
          assert s[j] == rest[j - 1] && s[k] == rest[k - 1];
          assert StandingBefore(rest[j - 1], rest[k - 1]);
        } else {
          assert s[k] == rest[k - 1];
          assert StandingBefore(sorted[0], rest[k - 1]);
        }
      }
    }
  }

  /**
   * The end-screen standings: the game's contestants sorted by descending
   * score and then by name (Python's `sort(key=lambda c: (-score, name))`).
   */
  function Standings(contestants: seq<GameContestant>): (r: seq<GameContestant>)
    ensures multiset(r) == multiset(contestants)
  {
    if contestants == [] then []
    else
      assert contestants == [contestants[0]] + contestants[1..];
      InsertStanding(contestants[0], Standings(contestants[1..]))
  }

  /** The standings are in standings order. */
  lemma {:induction false} StandingsOrdered(contestants: seq<GameContestant>)
    ensures InStandingOrder(Standings(contestants))
  {
    if contestants != [] {
      StandingsOrdered(contestants[1..]);
      InsertStandingOrdered(contestants[0], Standings(contestants[1..]));
    }
  }

  /** The locale's words used in the winner announcement. */
  datatype EndscreenTexts = EndscreenTexts(and: string, flavor1: string, flavor2: string, flavor3: string)

  /** A winner's name in their colour, bold unless it is the first of two winners. */
  function WinnerSpan(c: GameContestant, bold: bool): string {
    "<span style=\"color: " + c.contestant.color + (if bold then "; font-weight: 800;" else "") + "\">"
    + c.contestant.name + "</span>"
  }

  function BoldSpans(winners: seq<GameContestant>): (r: seq<string>)
    ensures |r| == |winners|
    ensures forall k :: 0 <= k < |r| ==> r[k] == WinnerSpan(winners[k], true)
  {
    if winners == [] then [] else [WinnerSpan(winners[0], true)] + BoldSpans(winners[1..])
  }

  /**
   * `winner_desc`: one winner, two tied winners, or more tied winners listed
   * with commas and "and" before the last. No winners at all (a game without
   * contestants) raises an IndexError, modelled as None.
   */
  function WinnerDescription(winners: seq<GameContestant>, texts: EndscreenTexts): (d: Option<string>)
    ensures d.None? <==> winners == []
  {
    if |winners| == 1 then
      Some(WinnerSpan(winners[0], true) + " " + texts.flavor1)
    else if |winners| == 2 then
      Some(WinnerSpan(winners[0], false) + " " + texts.and + " " + WinnerSpan(winners[1], true) + " " + texts.flavor2)
    else if winners == [] then
      None
    else
      var n := |winners|;
      var tied := Join(BoldSpans(winners[..n - 1]), ", ") + ", " + texts.and + " " + WinnerSpan(winners[n - 1], true);
      Some(tied + " " + texts.flavor3)
  }

  ghost predicate Mentions(s: string, pat: string) {
    exists k :: OccursAt(s, pat, k)
  }

  lemma MentionsAppend(s: string, t: string, pat: string)
    requires Mentions(s, pat)
    ensures Mentions(s + t, pat)
  {
    var k :| OccursAt(s, pat, k);
    assert (s + t)[k..k + |pat|] == s[k..k + |pat|];
    assert OccursAt(s + t, pat, k);
  }

  lemma MentionsPrepend(t: string, s: string, pat: string)
    requires Mentions(s, pat)
    ensures Mentions(t + s, pat)
  {
    var k :| OccursAt(s, pat, k);
    assert (t + s)[|t| + k..|t| + k + |pat|] == s[k..k + |pat|];
    assert OccursAt(t + s, pat, |t| + k);
  }

  lemma SpanMentionsName(c: GameContestant, bold: bool)
    ensures Mentions(WinnerSpan(c, bold), c.contestant.name)
  {
    var name := c.contestant.name;
    var head := "<span style=\"color: " + c.contestant.color + (if bold then "; font-weight: 800;" else "") + "\">";
    assert OccursAt(name, name, 0);
    MentionsPrepend(head, name, name);
    MentionsAppend(head + name, "</span>", name);
  }

  lemma {:induction false} JoinMentions(parts: seq<string>, sep: string, k: nat, pat: string)
    requires k < |parts| && Mentions(parts[k], pat)
    ensures Mentions(Join(parts, sep), pat)
  {
    if |parts| > 1 {
      if k == 0 {
        MentionsAppend(parts[0], sep, pat);
        MentionsAppend(parts[0] + sep, Join(parts[1..], sep), pat);
      } else {
        JoinMentions(parts[1..], sep, k - 1, pat);
        MentionsPrepend(parts[0] + sep, Join(parts[1..], sep), pat);
      }
    }
  }

  lemma NamedInTwo(winners: seq<GameContestant>, texts: EndscreenTexts, k: nat)
    requires |winners| == 2 && k < 2
    ensures Mentions(WinnerDescription(winners, texts).value, winners[k].contestant.name)
  {
    var name := winners[k].contestant.name;
    var a, b := WinnerSpan(winners[0], false), WinnerSpan(winners[1], true);
    if k == 0 {
      SpanMentionsName(winners[0], false);
      MentionsAppend(a, " ", name);
      MentionsAppend(a + " ", texts.and, name);
      MentionsAppend(a + " " + texts.and, " ", name);
      MentionsAppend(a + " " + texts.and + " ", b, name);
    } else {
      SpanMentionsName(winners[1], true);
      MentionsPrepend(a + " " + texts.and + " ", b, name);
    }
    MentionsAppend(a + " " + texts.and + " " + b, " ", name);
    MentionsAppend(a + " " + texts.and + " " + b + " ", texts.flavor2, name);
  }

  lemma NamedInMany(winners: seq<GameContestant>, texts: EndscreenTexts, k: nat)
    requires |winners| > 2 && k < |winners|
    ensures Mentions(WinnerDescription(winners, texts).value, winners[k].contestant.name)
  {
    var n := |winners|;
    var name := winners[k].contestant.name;
    var head := Join(BoldSpans(winners[..n - 1]), ", ");
    var last := WinnerSpan(winners[n - 1], true);
    if k < n - 1 {
      SpanMentionsName(winners[k], true);
      JoinMentions(BoldSpans(winners[..n - 1]), ", ", k, name);
      MentionsAppend(head, ", ", name);
      MentionsAppend(head + ", ", texts.and, name);
      MentionsAppend(head + ", " + texts.and, " ", name);
      MentionsAppend(head + ", " + texts.and + " ", last, name);
    } else {
      SpanMentionsName(winners[n - 1], true);
      MentionsPrepend(head + ", " + texts.and + " ", last, name);
    }
    MentionsAppend(head + ", " + texts.and + " " + last, " ", name);
    MentionsAppend(head + ", " + texts.and + " " + last + " ", texts.flavor3, name);
  }

  /** The announcement names every winner. */
  lemma WinnerDescriptionNamesAll(winners: seq<GameContestant>, texts: EndscreenTexts, k: nat)
    requires k < |winners|
    ensures Mentions(WinnerDescription(winners, texts).value, winners[k].contestant.name)
  {
    if |winners| == 1 {
      SpanMentionsName(winners[0], true);
      MentionsAppend(WinnerSpan(winners[0], true), " ", winners[0].contestant.name);
      MentionsAppend(WinnerSpan(winners[0], true) + " ", texts.flavor1, winners[0].contestant.name);
    } else if |winners| == 2 {
      NamedInTwo(winners, texts, k);
    } else {
      NamedInMany(winners, texts, k);
    }
  }

  /** The announcement's closing words tell how many winners there are. */
  lemma WinnerDescriptionForm(winners: seq<GameContestant>, texts: EndscreenTexts)
    requires winners != []
    ensures var d := WinnerDescription(winners, texts).value;
      var flavor := if |winners| == 1 then texts.flavor1 else if |winners| == 2 then texts.flavor2 else texts.flavor3;
      |flavor| < |d| && d[|d| - |flavor|..] == flavor && d[|d| - |flavor| - 1] == ' '
  {
  }

  /** The endscreen's results. */
  datatype Endscreen = Endscreen(standings: seq<GameContestant>, winners: seq<GameContestant>, description: Option<string>)

  /** The state changes and results of the `endscreen` route; `now` is the clock at the save. */
  method EndscreenRoute(game: Game, texts: EndscreenTexts, now: int) returns (screen: Endscreen)
    modifies game
    ensures game.stage == Ended && game.endedAt == Some(now)
    ensures game.round == old(game.round) && game.contestants == old(game.contestants) && game.questions == old(game.questions)
    ensures game.contestants == [] ==> screen.winners == []
    ensures game.contestants != [] ==> screen.winners == Filter(game.contestants, ScoreIs(MaxScore(game.contestants)))
    ensures multiset(screen.standings) == multiset(game.contestants) && InStandingOrder(screen.standings)
    ensures screen.description == WinnerDescription(screen.winners, texts)
  {
    game.stage := Ended;
    SaveGame(game, now);
    var winners := GetGameWinners(game.contestants);
    StandingsOrdered(game.contestants);
    screen := Endscreen(Standings(game.contestants), winners, WinnerDescription(winners, texts));
  }
}
