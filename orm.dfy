/**
 * The persisted game entities of Jeoparty (contestants in a game, game
 * questions, question packs, power-ups) and the read-only helpers the ORM
 * layer defines on them: first-match lookups, the per-round question filter,
 * the winners of a game and the derived `extra_fields` of a game.
 *
 * A related ORM object that the source mutates in place is modelled as a
 * datatype value stored in a sequence field of `Game`; an index into that
 * sequence plays the role of the object reference a lookup returns.
 */
module Orm {
  import opened Wrappers
  import opened SeqUtil

  datatype Stage = Lobby | Selection | Question | FinaleWager | FinaleQuestion | FinaleResult | Ended

  datatype PowerUpType = Hijack | Freeze | Rewind

  /** Every power-up kind, in the order the enumeration declares them. */
  const AllPowerUpTypes: seq<PowerUpType> := [Hijack, Freeze, Rewind]

  datatype GamePowerUp = GamePowerUp(kind: PowerUpType, enabled: bool, used: bool)

  datatype Contestant = Contestant(id: string, name: string, color: string)

  /** A contestant's participation in one game; `contestant.id` is the `contestant_id` column. */
  datatype GameContestant = GameContestant(
    id: string,
    contestant: Contestant,
    hasTurn: bool,
    score: int,
    buzzes: int,
    hits: int,
    misses: int,
    finaleWager: Option<int>,
    finaleAnswer: Option<string>,
    powerUps: seq<GamePowerUp>)

  /**
   * A question of the pack as used in one game. `roundNumber` is the number of
   * the round its category belongs to and `value` the question's value.
   */
  datatype GameQuestion = GameQuestion(
    questionId: string,
    roundNumber: int,
    value: int,
    active: bool,
    used: bool,
    dailyDouble: bool)

  datatype Question = Question(id: string, question: string, answer: string, value: int)

  datatype QuestionCategory = QuestionCategory(id: string, name: string, order: int, questions: seq<Question>)

  datatype QuestionRound = QuestionRound(id: string, name: string, round: int, categories: seq<QuestionCategory>)

  datatype QuestionPack = QuestionPack(id: string, includeFinale: bool, rounds: seq<QuestionRound>)

  // ---------------------------------------------------------------------
  // Lookups: the first element satisfying a predicate, None iff none does.
  // ---------------------------------------------------------------------

  /** `GameContestant.get_power`: position of the contestant's first power-up of this kind. */
  function GetPower(powerUps: seq<GamePowerUp>, kind: PowerUpType): (r: Option<nat>)
    ensures r.Some? ==> r.value < |powerUps| && powerUps[r.value].kind == kind
    ensures r.Some? ==> forall j :: 0 <= j < r.value ==> powerUps[j].kind != kind
    ensures r.None? <==> forall j :: 0 <= j < |powerUps| ==> powerUps[j].kind != kind
  {
    if |powerUps| == 0 then None
    else if powerUps[0].kind == kind then Some(0)
    else
      match GetPower(powerUps[1..], kind)
      case None => None
      case Some(k) => Some(k + 1)
  }

  /** `Game.get_contestant`: the contestant record of the first game contestant with this contestant id. */
  function GetContestant(contestants: seq<GameContestant>, contestantId: Option<string>): (r: Option<Contestant>)
    ensures contestantId.None? ==> r.None?
    ensures contestantId.Some? && r.None? ==>
      forall j :: 0 <= j < |contestants| ==> contestants[j].contestant.id != contestantId.value
    ensures contestantId.Some? && r.Some? ==>
      exists i :: 0 <= i < |contestants| && contestants[i].contestant == r.value
        && r.value.id == contestantId.value
        && forall j :: 0 <= j < i ==> contestants[j].contestant.id != contestantId.value
  {
    if contestantId.None? then None
    else
      match FirstIndex(contestants, (c: GameContestant) => c.contestant.id == contestantId.value)
      case None => None
      case Some(i) => Some(contestants[i].contestant)
  }

  /** `Game.get_game_contestant`: position of the first game contestant with this game-contestant id. */
  function GetGameContestant(contestants: seq<GameContestant>, id: Option<string>): (r: Option<nat>)
    ensures id.None? ==> r.None?
    ensures r.Some? ==> id.Some? && r.value < |contestants| && contestants[r.value].id == id.value
    ensures r.Some? ==> forall j :: 0 <= j < r.value ==> contestants[j].id != id.value
    ensures id.Some? ==> (r.None? <==> forall j :: 0 <= j < |contestants| ==> contestants[j].id != id.value)
  {
    if id.None? then None
    else if |contestants| == 0 then None
    else if contestants[0].id == id.value then Some(0)
    else
      match GetGameContestant(contestants[1..], id)
      case None => None
      case Some(k) => Some(k + 1)
  }

  /** `Game.get_question`: position of the first game question for this question id. */
  function GetQuestion(questions: seq<GameQuestion>, questionId: string): (r: Option<nat>)
    ensures r.Some? ==> r.value < |questions| && questions[r.value].questionId == questionId
    ensures r.Some? ==> forall j :: 0 <= j < r.value ==> questions[j].questionId != questionId
    ensures r.None? <==> forall j :: 0 <= j < |questions| ==> questions[j].questionId != questionId
  {
    FirstIndex(questions, (q: GameQuestion) => q.questionId == questionId)
  }

  /** `Game.get_contestant_with_turn`: position of the first contestant holding the turn. */
  function GetContestantWithTurn(contestants: seq<GameContestant>): (r: Option<nat>)
    ensures r.Some? ==> r.value < |contestants| && contestants[r.value].hasTurn
    ensures r.Some? ==> forall j :: 0 <= j < r.value ==> !contestants[j].hasTurn
    ensures r.None? <==> forall j :: 0 <= j < |contestants| ==> !contestants[j].hasTurn
  {
    if |contestants| == 0 then None
    else if contestants[0].hasTurn then Some(0)
    else
      match GetContestantWithTurn(contestants[1..])
      case None => None
      case Some(k) => Some(k + 1)
  }

  /** `Game.get_active_question`: position of the first active game question. */
  function GetActiveQuestion(questions: seq<GameQuestion>): (r: Option<nat>)
    ensures r.Some? ==> r.value < |questions| && questions[r.value].active
    ensures r.Some? ==> forall j :: 0 <= j < r.value ==> !questions[j].active
    ensures r.None? <==> forall j :: 0 <= j < |questions| ==> !questions[j].active
  {
    FirstIndex(questions, (q: GameQuestion) => q.active)
  }

  // ---------------------------------------------------------------------
  // Questions of the current round.
  // ---------------------------------------------------------------------

  function InRound(round: int): GameQuestion -> bool {
    (q: GameQuestion) => q.roundNumber == round
  }

  /** `Game.get_questions_for_round`: the game questions of round `round`, in their stored order. */
  function GetQuestionsForRound(questions: seq<GameQuestion>, round: int): (r: seq<GameQuestion>)
    ensures forall q :: q in r <==> q in questions && q.roundNumber == round
    ensures |r| <= |questions|
  {
    FilterMembers(questions, InRound(round));
    Filter(questions, InRound(round))
  }

  /** Positions (ascending, from `start` on) of the questions belonging to round `round`. */
  function RoundPositions(questions: seq<GameQuestion>, round: int, start: nat): (r: seq<nat>)
    requires start <= |questions|
    ensures forall k :: 0 <= k < |r| ==> start <= r[k] < |questions| && questions[r[k]].roundNumber == round
    ensures forall k, l :: 0 <= k < l < |r| ==> r[k] < r[l]
    ensures forall i :: start <= i < |questions| && questions[i].roundNumber == round ==> i in r
    decreases |questions| - start
  {
    if start == |questions| then []
    else (if questions[start].roundNumber == round then [start] else []) + RoundPositions(questions, round, start + 1)
  }

  /** The positions pick out exactly the round's questions, in order. */
  lemma {:induction false} RoundPositionsPickRound(questions: seq<GameQuestion>, round: int, start: nat)
    requires start <= |questions|
    ensures var pos := RoundPositions(questions, round, start);
      |pos| == |Filter(questions[start..], InRound(round))|
      && forall k :: 0 <= k < |pos| ==> questions[pos[k]] == Filter(questions[start..], InRound(round))[k]
    decreases |questions| - start
  {
    if start < |questions| {
      RoundPositionsPickRound(questions, round, start + 1);
      var s := questions[start..];
      assert s[0] == questions[start];
      assert s[1..] == questions[start + 1..];
      var rest := RoundPositions(questions, round, start + 1);
      var tail := Filter(questions[start + 1..], InRound(round));
      if questions[start].roundNumber == round {
        assert RoundPositions(questions, round, start) == [start] + rest;
        assert Filter(s, InRound(round)) == [s[0]] + tail;
      } else {
        assert RoundPositions(questions, round, start) == rest;
        assert Filter(s, InRound(round)) == tail;
      }
    }
  }

  // ---------------------------------------------------------------------
  // Winners of a game.
  // ---------------------------------------------------------------------

  predicate ScoresDescending(s: seq<GameContestant>) {
    forall i, j :: 0 <= i < j < |s| ==> s[i].score >= s[j].score
  }

  function ScoreIs(v: int): GameContestant -> bool {
    (c: GameContestant) => c.score == v
  }

  /** The highest score among the contestants. */
  function MaxScore(s: seq<GameContestant>): (m: int)
    requires |s| > 0
    ensures forall i :: 0 <= i < |s| ==> s[i].score <= m
    ensures exists i :: 0 <= i < |s| && s[i].score == m
  {
    if |s| == 1 then s[0].score
    else
      var rest := MaxScore(s[1..]);
      assert forall i :: 1 <= i < |s| ==> s[i] == s[1..][i - 1];
      if s[0].score >= rest then s[0].score else rest
  }

  /** Insert `c` after every entry whose score is at least its own (keeps equal scores in arrival order). */
  function InsertByScore(c: GameContestant, sorted: seq<GameContestant>): (r: seq<GameContestant>)
    requires ScoresDescending(sorted)
    ensures ScoresDescending(r)
    ensures |r| == |sorted| + 1
    ensures r[0] == c || (|sorted| > 0 && r[0] == sorted[0])
  {
    if |sorted| == 0 then [c]
    else if sorted[0].score >= c.score then
      var rest := InsertByScore(c, sorted[1..]);
      assert forall j :: 0 <= j < |rest| ==> rest[j].score <= rest[0].score;
      [sorted[0]] + rest
    else [c] + sorted
  }

  lemma {:induction false} InsertByScoreMembers(c: GameContestant, sorted: seq<GameContestant>)
    requires ScoresDescending(sorted)
    ensures forall x :: x in InsertByScore(c, sorted) <==> x in sorted || x == c
  {
    if |sorted| > 0 && sorted[0].score >= c.score {
      InsertByScoreMembers(c, sorted[1..]);
      assert sorted == [sorted[0]] + sorted[1..];
    }
  }

  /** Python's stable `sorted(..., key=score, reverse=True)`. */
  function SortByScore(s: seq<GameContestant>): (r: seq<GameContestant>)
    ensures ScoresDescending(r)
    ensures |r| == |s|
    decreases |s|
  {
    if |s| == 0 then []
    else InsertByScore(s[|s| - 1], SortByScore(s[..|s| - 1]))
  }

  /** Sorting neither loses nor invents contestants. */
  lemma {:induction false} SortByScoreMembers(s: seq<GameContestant>)
    ensures forall x :: x in SortByScore(s) <==> x in s
    decreases |s|
  {
    if |s| > 0 {
      SortByScoreMembers(s[..|s| - 1]);
      InsertByScoreMembers(s[|s| - 1], SortByScore(s[..|s| - 1]));
      assert s == s[..|s| - 1] + [s[|s| - 1]];
    }
  }

  lemma {:induction false} InsertByScoreStable(c: GameContestant, sorted: seq<GameContestant>, v: int)
    requires ScoresDescending(sorted)
    ensures Filter(InsertByScore(c, sorted), ScoreIs(v))
         == Filter(sorted, ScoreIs(v)) + (if c.score == v then [c] else [])
  {
    var p := ScoreIs(v);
    var added := if c.score == v then [c] else [];
    if |sorted| == 0 {
    } else if sorted[0].score >= c.score {
      var rest := InsertByScore(c, sorted[1..]);
      InsertByScoreStable(c, sorted[1..], v);
      var r := [sorted[0]] + rest;
      assert r[0] == sorted[0] && r[1..] == rest;
      var head := if p(sorted[0]) then [sorted[0]] else [];
      assert Filter(r, p) == head + (Filter(sorted[1..], p) + added);
      assert Filter(sorted, p) == head + Filter(sorted[1..], p);
    } else {
      var r := [c] + sorted;
      assert r[0] == c && r[1..] == sorted;
      assert Filter(r, p) == added + Filter(sorted, p);
      if c.score == v {
        FilterAllFail(sorted, p);
      }
    }
  }

  /** Sorting keeps the contestants of any one score in their original relative order. */
  lemma {:induction false} SortByScoreStable(s: seq<GameContestant>, v: int)
    ensures Filter(SortByScore(s), ScoreIs(v)) == Filter(s, ScoreIs(v))
    decreases |s|
  {
    if |s| > 0 {
      var init, last := s[..|s| - 1], s[|s| - 1];
      var sortedInit := SortByScore(init);
      var extra := if last.score == v then [last] else [];
      assert SortByScore(s) == InsertByScore(last, sortedInit);
      SortByScoreStable(init, v);
      InsertByScoreStable(last, sortedInit, v);
      assert Filter(SortByScore(s), ScoreIs(v)) == Filter(init, ScoreIs(v)) + extra;
      assert s == init + [last];
      FilterAppend(init, [last], ScoreIs(v));
      FilterSingleton(last, ScoreIs(v));
    }
  }

  /** In a descending order the run of entries equal to the first one is exactly those with the top score. */
  lemma TopRunIsFilter(u: seq<GameContestant>, m: nat)
    requires 0 < m <= |u|
    requires forall k :: 0 <= k < m ==> u[k].score == u[0].score
    requires forall k :: m <= k < |u| ==> u[k].score != u[0].score
    ensures u[..m] == Filter(u, ScoreIs(u[0].score))
  {
    FilterPrefixRun(u, ScoreIs(u[0].score), m);
  }

  /** Past the run of top scores, a descending order holds only lower scores. */
  lemma TailBelowTop(u: seq<GameContestant>, m: nat)
    requires ScoresDescending(u) && 0 < m <= |u|
    requires m < |u| ==> u[m].score < u[0].score
    ensures forall k :: m <= k < |u| ==> u[k].score < u[0].score
  {
  }

  /** The first entry of the sorted contestants carries the maximum score. */
  lemma SortedHeadIsMax(contestants: seq<GameContestant>)
    requires |contestants| > 0
    ensures SortByScore(contestants)[0].score == MaxScore(contestants)
  {
    var sorted := SortByScore(contestants);
    SortByScoreMembers(contestants);
    var m := MaxScore(contestants);
    assert sorted[0] in sorted;
    var w :| 0 <= w < |contestants| && contestants[w].score == m;
    assert contestants[w] in contestants;
  }

  /** The leading run of tied entries of the sorted contestants is exactly the top scorers, in joining order. */
  lemma TopRunOfSortIsWinners(contestants: seq<GameContestant>, n: nat)
    requires 0 < n <= |contestants|
    requires forall k :: 0 <= k < n ==> SortByScore(contestants)[k].score == SortByScore(contestants)[0].score
    requires n < |contestants| ==> SortByScore(contestants)[n].score < SortByScore(contestants)[0].score
    ensures SortByScore(contestants)[..n] == Filter(contestants, ScoreIs(MaxScore(contestants)))
  {
    TailBelowTop(SortByScore(contestants), n);
    TopRunIsFilter(SortByScore(contestants), n);
    SortedHeadIsMax(contestants);
    SortByScoreStable(contestants, MaxScore(contestants));
  }

  /**
   * `Game.get_game_winners`: sort by score (highest first) and keep the leading
   * run of tied contestants. The result is exactly the contestants whose score
   * is the maximum, in the order they joined.
   */
  method GetGameWinners(contestants: seq<GameContestant>) returns (winners: seq<GameContestant>)
    ensures |contestants| == 0 ==> winners == []
    ensures |contestants| > 0 ==> winners == Filter(contestants, ScoreIs(MaxScore(contestants)))
  {
    var sorted := SortByScore(contestants);
    if |sorted| == 0 {
      return [];
    }
    var ties := 0;
    var index := 1;
    while index < |sorted| && sorted[index - 1].score <= sorted[index].score
      invariant 1 <= index <= |sorted|
      invariant ties == index - 1
      invariant forall k :: 0 <= k < index ==> sorted[k].score == sorted[0].score
    {
      ties := ties + 1;
      index := index + 1;
    }
    winners := sorted[..ties + 1];
    TopRunOfSortIsWinners(contestants, ties + 1);
  }

  // ---------------------------------------------------------------------
  // All questions of a pack.
  // ---------------------------------------------------------------------

  /** The questions of some categories, category after category. */
  function CategoriesQuestions(categories: seq<QuestionCategory>): seq<Question>
    decreases |categories|
  {
    if |categories| == 0 then []
    else CategoriesQuestions(categories[..|categories| - 1]) + categories[|categories| - 1].questions
  }

  /** The questions of some rounds, round after round. */
  function RoundsQuestions(rounds: seq<QuestionRound>): seq<Question>
    decreases |rounds|
  {
    if |rounds| == 0 then []
    else RoundsQuestions(rounds[..|rounds| - 1]) + CategoriesQuestions(rounds[|rounds| - 1].categories)
  }

  lemma {:induction false} CategoriesQuestionsMembers(categories: seq<QuestionCategory>, q: Question)
    ensures q in CategoriesQuestions(categories) <==>
      exists c :: 0 <= c < |categories| && q in categories[c].questions
    decreases |categories|
  {
    if |categories| > 0 {
      var n := |categories| - 1;
      CategoriesQuestionsMembers(categories[..n], q);
      assert forall c :: 0 <= c < n ==> categories[..n][c] == categories[c];
    }
  }

  /** A question is collected iff it belongs to some category of some round. */
  lemma {:induction false} RoundsQuestionsMembers(rounds: seq<QuestionRound>, q: Question)
    ensures q in RoundsQuestions(rounds) <==>
      exists r, c :: 0 <= r < |rounds| && 0 <= c < |rounds[r].categories| && q in rounds[r].categories[c].questions
    decreases |rounds|
  {
    if |rounds| > 0 {
      var n := |rounds| - 1;
      RoundsQuestionsMembers(rounds[..n], q);
      CategoriesQuestionsMembers(rounds[n].categories, q);
      assert forall r :: 0 <= r < n ==> rounds[..n][r] == rounds[r];
    }
  }

  /** `QuestionPack.get_all_questions`: every question of the pack, in round, category, question order. */
  method GetAllQuestions(pack: QuestionPack) returns (questions: seq<Question>)
    ensures questions == RoundsQuestions(pack.rounds)
  {
    questions := [];
    var i := 0;
    while i < |pack.rounds|
      invariant 0 <= i <= |pack.rounds|
      invariant questions == RoundsQuestions(pack.rounds[..i])
    {
      var categories := pack.rounds[i].categories;
      ghost var roundStart := questions;
      var j := 0;
      while j < |categories|
        invariant 0 <= j <= |categories|
        invariant questions == roundStart + CategoriesQuestions(categories[..j])
      {
        var qs := categories[j].questions;
        ghost var categoryStart := questions;
        var k := 0;
        while k < |qs|
          invariant 0 <= k <= |qs|
          invariant questions == categoryStart + qs[..k]
        {
          questions := questions + [qs[k]];
          assert qs[..k + 1] == qs[..k] + [qs[k]];
          k := k + 1;
        }
        assert qs[..k] == qs;
        assert categories[..j + 1][..j] == categories[..j];
        assert CategoriesQuestions(categories[..j + 1]) == CategoriesQuestions(categories[..j]) + qs;
        j := j + 1;
      }
      assert categories[..j] == categories;
      assert pack.rounds[..i + 1][..i] == pack.rounds[..i];
      assert RoundsQuestions(pack.rounds[..i + 1]) == roundStart + CategoriesQuestions(categories);
      i := i + 1;
    }
    assert pack.rounds[..i] == pack.rounds;
  }

  // ---------------------------------------------------------------------
  // Derived fields of a game.
  // ---------------------------------------------------------------------

  /** The largest question value, 0 for no questions (`max(...) if questions else 0`). */
  function MaxValue(questions: seq<GameQuestion>): (m: int)
    ensures forall i :: 0 <= i < |questions| ==> questions[i].value <= m
    ensures |questions| > 0 ==> exists i :: 0 <= i < |questions| && questions[i].value == m
    ensures |questions| == 0 ==> m == 0
  {
    if |questions| == 0 then 0
    else if |questions| == 1 then questions[0].value
    else
      var rest := MaxValue(questions[1..]);
      assert forall i :: 1 <= i < |questions| ==> questions[i] == questions[1..][i - 1];
      if questions[0].value >= rest then questions[0].value else rest
  }

  function IsUsed(): GameQuestion -> bool {
    (q: GameQuestion) => q.used
  }

  datatype ExtraFields = ExtraFields(
    totalRounds: int,
    playerWithTurn: Option<GameContestant>,
    maxValue: int,
    questionNum: int)

  /**
   * The game entity. Fields the routes and socket handlers assign are `var`s;
   * the configuration chosen when the game was created is `const`.
   */
  class Game {
    var contestants: seq<GameContestant>
    var questions: seq<GameQuestion>
    var stage: Stage
    var round: int
    var endedAt: Option<int>
    const regularRounds: int
    const useDailyDoubles: bool
    const pack: QuestionPack

    constructor (contestants: seq<GameContestant>, questions: seq<GameQuestion>,
                 regularRounds: int, useDailyDoubles: bool, pack: QuestionPack)
      ensures this.contestants == contestants && this.questions == questions
      ensures this.regularRounds == regularRounds && this.useDailyDoubles == useDailyDoubles
      ensures this.pack == pack
      ensures stage == Lobby && round == 1 && endedAt == None
    {
      this.contestants := contestants;
      this.questions := questions;
      this.regularRounds := regularRounds;
      this.useDailyDoubles := useDailyDoubles;
      this.pack := pack;
      stage := Lobby;
      round := 1;
      endedAt := None;
    }

    /**
     * `Game.extra_fields`: the round count including the finale, the contestant
     * holding the turn, the largest question value of the current round and
     * the number of the next question.
     */
    function GameExtraFields(): (f: ExtraFields)
      reads this
      ensures f.totalRounds == regularRounds + (if pack.includeFinale then 1 else 0)
      ensures f.playerWithTurn.None? <==> forall j :: 0 <= j < |contestants| ==> !contestants[j].hasTurn
      ensures f.playerWithTurn.Some? ==> f.playerWithTurn.value.hasTurn && f.playerWithTurn.value in contestants
      ensures forall q :: q in GetQuestionsForRound(questions, round) ==> q.value <= f.maxValue
      ensures GetQuestionsForRound(questions, round) == [] ==> f.maxValue == 0
      ensures f.questionNum == |Filter(questions, IsUsed())| + 1
      ensures f.questionNum >= 1
    {
      var forRound := GetQuestionsForRound(questions, round);
      ExtraFields(
        if pack.includeFinale then regularRounds + 1 else regularRounds,
        match GetContestantWithTurn(contestants)
        case None => None
        case Some(i) => Some(contestants[i]),
        MaxValue(forRound),
        |Filter(questions, IsUsed())| + 1)
    }

    /** `Game.set_contestant_turn`: exactly the entries with this contestant id hold the turn. */
    method SetContestantTurn(contestantId: string)
      modifies this
      ensures |contestants| == |old(contestants)|
      ensures forall i :: 0 <= i < |contestants| ==>
        contestants[i] == old(contestants)[i].(hasTurn := old(contestants)[i].contestant.id == contestantId)
      ensures questions == old(questions) && stage == old(stage) && round == old(round) && endedAt == old(endedAt)
    {
      var i := 0;
      while i < |contestants|
        invariant 0 <= i <= |contestants| == |old(contestants)|
        invariant forall k :: 0 <= k < i ==>
          contestants[k] == old(contestants)[k].(hasTurn := old(contestants)[k].contestant.id == contestantId)
        invariant forall k :: i <= k < |contestants| ==> contestants[k] == old(contestants)[k]
        invariant questions == old(questions) && stage == old(stage) && round == old(round) && endedAt == old(endedAt)
      {
        contestants := contestants[i := contestants[i].(hasTurn := contestants[i].contestant.id == contestantId)];
        i := i + 1;
      }
    }
  }

  /** After `SetContestantTurn(id)` the holder of the turn is the first entry with that contestant id. */
  lemma TurnHolderAfterSet(before: seq<GameContestant>, after: seq<GameContestant>, contestantId: string)
    requires |after| == |before|
    requires forall i :: 0 <= i < |after| ==>
      after[i] == before[i].(hasTurn := before[i].contestant.id == contestantId)
    ensures GetContestantWithTurn(after) == FirstIndex(before, (c: GameContestant) => c.contestant.id == contestantId)
  {
    var r := GetContestantWithTurn(after);
    var f := FirstIndex(before, (c: GameContestant) => c.contestant.id == contestantId);
    assert forall i :: 0 <= i < |after| ==> (after[i].hasTurn <==> before[i].contestant.id == contestantId);
    if r.Some? && f.Some? {
      assert !(r.value < f.value) && !(f.value < r.value);
    }
  }
}
