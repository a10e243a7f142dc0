/**
 * The presenter page's round engine (`presenter.js`). The page keeps the
 * state of the question on screen in globals: who may still buzz
 * (`activePlayers`), the order of buzzes (`playersBuzzedIn`), who is
 * answering, the power-up in play, the question's value, every player's
 * score, and a pausable countdown. The hit and miss counters live only in
 * the page's text; they are fields here.
 *
 * Each handler is a method of `Presenter` that changes those fields step by
 * step, and is proved to leave the page in the state a pure transition
 * function of this module describes (`Corrected`, `Wronged`, `Rewound`, ...).
 * The lemmas relate the transition functions: an undo restores the score, a
 * rewind refunds a wrong answer, hijack leaves one eligible player, and a
 * countdown expires exactly once.
 *
 * What a handler reads from the page (tips shown, wrong choices, the number
 * of choices, whether the question has been shown, whether a player still
 * holds rewind) is a parameter. Timers are explicit: the countdown's
 * interval is `Tick`, and the 4 s rewind grace is `RewindGraceOver`.
 */
module PresenterEngine {
  import opened Wrappers
  import opened Text
  import opened SeqUtil

  type PlayerId = string

  /** The power-ups. `powerUpUsed` treats any id other than freeze and rewind as hijack. */
  datatype Power = Freeze | Rewind | Hijack

  /**
   * The countdown bar: whether an interval is installed
   * (`countdownInterval != null`), `countdownPaused`, and the interval's
   * elapsed `currTime` and its limit `durationMillis`.
   */
  datatype Countdown = Countdown(running: bool, paused: bool, currTime: int, durationMillis: int)

  /** The page globals one question's handlers read and write. */
  datatype PageState = PageState(
    activePlayers: map<PlayerId, bool>,   // who may still buzz in
    playersBuzzedIn: seq<PlayerId>,       // every accepted buzz, in order
    answeringPlayer: Option<PlayerId>,
    activePowerUp: Option<Power>,
    hijackBonus: bool,
    activeValue: real,
    activeAnswer: Option<string>,         // None once the answer has been given or revealed
    playerScores: map<PlayerId, real>,
    hits: map<PlayerId, int>,             // the footer's hit counters
    misses: map<PlayerId, int>,           // the footer's miss counters
    playerTurn: Option<PlayerId>,
    correctShown: bool,                   // the "correct" indicator is visible
    wrongShown: bool,                     // the "wrong" indicator is visible
    countdown: Countdown)

  /** A player whose score and counters the page shows. */
  predicate Known(s: PageState, p: PlayerId) {
    p in s.playerScores && p in s.hits && p in s.misses
  }

  // ---------------------------------------------------------------------
  // The countdown (presenter.js:480-496, 573-628)

  /** `stopCountdown`: the interval is cleared and the pause flag reset. */
  function Stopped(c: Countdown): Countdown {
    c.(running := false, paused := false)
  }

  /** `pauseCountdown(paused)`: only a running countdown takes the flag. */
  function Paused(c: Countdown, paused: bool): Countdown {
    if c.running then c.(paused := paused) else c
  }

  /** `startCountdown(duration)`: a fresh, unpaused interval from zero. */
  function Started(duration: nat): Countdown {
    Countdown(true, false, 0, duration * 1000)
  }

  /** One interval firing: the new countdown, and whether it expired on this tick. */
  datatype TickResult = TickResult(countdown: Countdown, expired: bool)

  /** The interval callback: nothing while paused; otherwise 30 ms more, stopping at the limit. */
  function Ticked(c: Countdown): TickResult {
    if !c.running || c.paused then TickResult(c, false)
    else
      var t := c.currTime + 30;
      if t >= c.durationMillis then TickResult(Stopped(c.(currTime := t)), true)
      else TickResult(c.(currTime := t), false)
  }

  /** `n` interval firings: the final countdown and how many of them expired. */
  datatype TickRun = TickRun(countdown: Countdown, expiries: nat)

  function Ticks(c: Countdown, n: nat): TickRun
    decreases n
  {
    if n == 0 then TickRun(c, 0)
    else
      var first := Ticked(c);
      var rest := Ticks(first.countdown, n - 1);
      TickRun(rest.countdown, rest.expiries + if first.expired then 1 else 0)
  }

  /** A stopped countdown never fires again and stays as it is. */
  lemma {:induction false} StoppedNeverExpires(c: Countdown, n: nat)
    requires !c.running
    ensures Ticks(c, n) == TickRun(c, 0)
    decreases n
  {
    if n > 0 {
      StoppedNeverExpires(c, n - 1);
    }
  }

  /**
   * A started countdown runs its callback exactly once: after `n` firings it
   * has expired once if it is unpaused and `currTime + 30n` reached the
   * limit, and never otherwise; a paused one stays as it is.
   */
  lemma {:induction false} ExpiresOnce(c: Countdown, n: nat)
    requires c.running
    ensures Ticks(c, n).expiries
         == if !c.paused && n > 0 && c.currTime + 30 * n >= c.durationMillis then 1 else 0
    ensures c.paused ==> Ticks(c, n).countdown == c
    decreases n
  {
    if n > 0 {
      var first := Ticked(c);
      if c.paused {
        ExpiresOnce(c, n - 1);
      } else if first.expired {
        StoppedNeverExpires(first.countdown, n - 1);
      } else {
        ExpiresOnce(first.countdown, n - 1);
      }
    }
  }

  /** A countdown started for `duration` seconds expires on firing `ceil(duration * 1000 / 30)`. */
  lemma StartedExpiresAt(duration: nat, n: nat)
    ensures Ticks(Started(duration), n).expiries == if n > 0 && 30 * n >= duration * 1000 then 1 else 0
  {
    ExpiresOnce(Started(duration), n);
  }

  // ---------------------------------------------------------------------
  // Scoring (presenter.js:325-375)

  function Pow2(n: nat): (r: real)
    ensures r >= 1.0
  {
    if n == 0 then 1.0 else 2.0 * Pow2(n - 1)
  }

  /** `Math.ceil`. */
  function Ceil(x: real): (c: int)
    ensures x <= c as real < x + 1.0
  {
    -((-x).Floor)
  }

  /**
   * The value `correctAnswer` awards: halved for every tip shown, reduced by
   * the fraction of choices already answered wrong, times 1.5 with the
   * hijack bonus, then rounded up.
   */
  function AwardedValue(value: real, shownTips: nat, wrongAnswers: nat, choices: nat, hijackBonus: bool): int
    requires wrongAnswers > 0 ==> choices > 0
  {
    Ceil(AwardedValueBeforeCeil(value, shownTips, wrongAnswers, choices, hijackBonus))
  }

  function AwardedValueBeforeCeil(value: real, shownTips: nat, wrongAnswers: nat, choices: nat, hijackBonus: bool): real
    requires wrongAnswers > 0 ==> choices > 0
  {
    var afterTips := value * (1.0 / Pow2(shownTips));
    var afterChoices :=
      if wrongAnswers > 0 then afterTips - afterTips * (wrongAnswers as real / choices as real) else afterTips;
    if hijackBonus then afterChoices * 1.5 else afterChoices
  }

  /** With no tips, no wrong choices and no hijack, a whole value is awarded unchanged. */
  lemma FullValueAwarded(value: int, choices: nat)
    ensures AwardedValue(value as real, 0, 0, choices, false) == value
  {
  }

  /** Hijack before the question, with nothing else reducing it, awards `ceil(1.5 * value)`. */
  lemma HijackBonusAwarded(value: int, choices: nat)
    ensures AwardedValue(value as real, 0, 0, choices, true) == Ceil(1.5 * value as real)
  {
  }

  /** For instance a 125-point question hijacked before it was shown is worth 188. */
  lemma HijackBonusRoundsUp()
    ensures AwardedValue(125.0, 0, 0, 0, true) == 188
  {
    assert 1.5 * 125.0 == 187.5;
  }

  /**
   * Without the bonus the award of a non-negative whole value lies between 0
   * and the value itself, however many tips and wrong choices there were.
   */
  lemma AwardedValueBounds(value: int, shownTips: nat, wrongAnswers: nat, choices: nat)
    requires 0 <= value && wrongAnswers <= choices && (wrongAnswers > 0 ==> choices > 0)
    ensures 0 <= AwardedValue(value as real, shownTips, wrongAnswers, choices, false) <= value
  {
    var v := value as real;
    var b := AwardedValueBeforeCeil(v, shownTips, wrongAnswers, choices, false);
    var f := 1.0 / Pow2(shownTips);
    assert 0.0 < f <= 1.0;
    var afterTips := v * f;
    Shrinks(v, f);
    if wrongAnswers > 0 {
      var q := wrongAnswers as real / choices as real;
      assert 0.0 <= q <= 1.0;
      assert b == afterTips - afterTips * q;
      Shrinks(afterTips, q);
    } else {
      assert b == afterTips;
    }
    assert 0.0 <= b <= v;
    var c := Ceil(b);
    assert 0.0 <= c as real < v + 1.0;
  }

  /** Scaling by a fraction between 0 and 1 keeps a non-negative amount between 0 and itself. */
  lemma Shrinks(x: real, f: real)
    requires 0.0 <= x && 0.0 <= f <= 1.0
    ensures 0.0 <= x * f <= x
  {
    assert x - x * f == x * (1.0 - f);
  }


  // ---------------------------------------------------------------------
  // Answer handlers

  /** `updatePlayerScore` (presenter.js:180-187): one player's score moves by `delta`. */
  function ScoreMoved(s: PageState, p: PlayerId, delta: real): PageState
    requires p in s.playerScores
  {
    s.(playerScores := s.playerScores[p := s.playerScores[p] + delta])
  }

  /** `updatePlayerBuzzStats` (presenter.js:189-196): one player's hit or miss counter moves by `delta`. */
  function StatMoved(s: PageState, p: PlayerId, hit: bool, delta: int): PageState
    requires if hit then p in s.hits else p in s.misses
  {
    if hit then s.(hits := s.hits[p := s.hits[p] + delta])
    else s.(misses := s.misses[p := s.misses[p] + delta])
  }

  /** `afterQuestion` (presenter.js:264-281), which `revealAnswer` also ends with: no answer is pending. */
  function QuestionOver(s: PageState): PageState {
    s.(activeAnswer := None)
  }

  /** `afterAnswer` (presenter.js:283-323): nobody is answering. */
  function AnswerOver(s: PageState): PageState {
    s.(answeringPlayer := None)
  }

  /** Writing a key's old value back over a new one restores the map. */
  lemma Restored<V>(m: map<PlayerId, V>, p: PlayerId, x: V)
    requires p in m
    ensures m[p := x][p := m[p]] == m
  {
  }

  /** A score moved by `delta` and then by `-delta` leaves the page as it was. */
  lemma ScoreMovedBack(s: PageState, p: PlayerId, delta: real)
    requires p in s.playerScores
    ensures ScoreMoved(ScoreMoved(s, p, delta), p, -delta) == s
  {
    assert ScoreMoved(ScoreMoved(s, p, delta), p, -delta).playerScores == s.playerScores;
  }

  /** A counter moved by `delta` and then by `-delta` leaves the page as it was. */
  lemma StatMovedBack(s: PageState, p: PlayerId, hit: bool, delta: int)
    requires if hit then p in s.hits else p in s.misses
    ensures StatMoved(StatMoved(s, p, hit, delta), p, hit, -delta) == s
  {
    if hit {
      assert StatMoved(StatMoved(s, p, hit, delta), p, hit, -delta).hits == s.hits;
    } else {
      assert StatMoved(StatMoved(s, p, hit, delta), p, hit, -delta).misses == s.misses;
    }
  }

  /** `afterBuzzIn`: the countdown stops and both answer indicators are hidden (presenter.js:703-723). */
  function BuzzedIn(s: PageState): PageState {
    s.(countdown := Stopped(s.countdown), correctShown := false, wrongShown := false)
  }

  /** `correctAnswer` followed by `afterQuestion` and `afterAnswer`. */
  function Corrected(s: PageState, shownTips: nat, wrongAnswers: nat, choices: nat): PageState
    requires s.answeringPlayer.Some? && Known(s, s.answeringPlayer.value)
    requires wrongAnswers > 0 ==> choices > 0
  {
    var p := s.answeringPlayer.value;
    var v := AwardedValue(s.activeValue, shownTips, wrongAnswers, choices, s.hijackBonus) as real;
    var valued := s.(activePowerUp := None, activeValue := v, correctShown := true);
    var credited := StatMoved(ScoreMoved(valued, p, v), p, true, 1);
    AnswerOver(QuestionOver(credited.(playerTurn := Some(p))))
  }

  /** What `wrongAnswer` does once the score is settled. */
  datatype WrongOutcome =
    | RevealNow     // nobody else may answer: the answer is revealed at once
    | AwaitRewind   // the last answerer holds rewind: the reveal waits for the grace period
    | NextBuzz      // others may still buzz in

  /** Every player has answered or was never eligible. */
  predicate AllAnswered(active: map<PlayerId, bool>) {
    forall id | id in active :: !active[id]
  }

  function WrongOutcomeOf(s: PageState, questionOver: bool, hasRewind: bool): WrongOutcome {
    var outOfTime := questionOver && s.answeringPlayer.None?;
    if outOfTime || AllAnswered(s.activePlayers) then
      if !outOfTime && s.answeringPlayer.Some? && hasRewind then AwaitRewind else RevealNow
    else NextBuzz
  }

  /**
   * The first half of `wrongAnswer(reason, questionOver)`: an answerer loses
   * the value and gains a miss, and a time-out with nobody answering charges
   * nobody; the power-up in play ends either way.
   */
  function Charged(s: PageState, questionOver: bool): PageState
    requires s.answeringPlayer.Some? ==> Known(s, s.answeringPlayer.value)
  {
    var answering := s.answeringPlayer;
    var shown := (if questionOver && answering.None? then s.(activePowerUp := None) else s).(wrongShown := true);
    if answering.None? then shown
    else
      var p := answering.value;
      StatMoved(ScoreMoved(shown, p, -s.activeValue), p, false, 1).(activePowerUp := None)
  }

  /** The second half: `revealAnswer` and `afterAnswer` as the outcome decides. */
  function Settled(s: PageState, outcome: WrongOutcome): PageState {
    match outcome
    case RevealNow => AnswerOver(QuestionOver(s))
    case AwaitRewind => s
    case NextBuzz => AnswerOver(s)
  }

  /** `wrongAnswer(reason, questionOver)`. */
  function Wronged(s: PageState, questionOver: bool, hasRewind: bool): PageState
    requires s.answeringPlayer.Some? ==> Known(s, s.answeringPlayer.value)
  {
    Settled(Charged(s, questionOver), WrongOutcomeOf(s, questionOver, hasRewind))
  }

  /** The rewind grace period ends: the answer is revealed unless rewind was used meanwhile. */
  function GraceOver(s: PageState): PageState {
    if s.activePowerUp != Some(Rewind) then AnswerOver(QuestionOver(s)) else s
  }

  /**
   * `undoAnswer(p, currAnswer)`: gives back the value when the correct
   * indicator is hidden (a wrong answer is undone), takes it away otherwise,
   * and lets `p` answer again. The hit and miss counters are left alone.
   */
  function Undone(s: PageState, p: PlayerId, currAnswer: Option<string>): PageState
    requires Known(s, p)
  {
    var value := if s.correctShown then -s.activeValue else s.activeValue;
    var hidden := s.(wrongShown := false);
    var stopped := hidden.(countdown := Stopped(hidden.countdown));
    var restored := if currAnswer.Some? then stopped.(activeAnswer := currAnswer) else stopped;
    BuzzedIn(ScoreMoved(restored, p, value).(answeringPlayer := Some(p)))
  }

  /**
   * `correctAnswer` credits the answerer with exactly the awarded value and
   * one hit, gives them the turn, and ends the question; nobody else's score
   * or counters change.
   */
  lemma CorrectAnswerCredits(s: PageState, shownTips: nat, wrongAnswers: nat, choices: nat)
    requires s.answeringPlayer.Some? && Known(s, s.answeringPlayer.value)
    requires wrongAnswers > 0 ==> choices > 0
    ensures var p := s.answeringPlayer.value;
            var v := AwardedValue(s.activeValue, shownTips, wrongAnswers, choices, s.hijackBonus) as real;
            var t := Corrected(s, shownTips, wrongAnswers, choices);
            && t.activeValue == v
            && t.playerScores == s.playerScores[p := s.playerScores[p] + v]
            && t.hits == s.hits[p := s.hits[p] + 1] && t.misses == s.misses
            && t.playerTurn == Some(p) && t.correctShown
            && t.answeringPlayer.None? && t.activeAnswer.None? && t.activePowerUp.None?
            && t.activePlayers == s.activePlayers && t.countdown == s.countdown
  {
    var p := s.answeringPlayer.value;
    var v := AwardedValue(s.activeValue, shownTips, wrongAnswers, choices, s.hijackBonus) as real;
    var valued := s.(activePowerUp := None, activeValue := v, correctShown := true);
    var credited := StatMoved(ScoreMoved(valued, p, v), p, true, 1);
    assert credited.playerScores == s.playerScores[p := s.playerScores[p] + v];
  }

  /**
   * `undoAnswer(p, currAnswer)` moves `p`'s score back by the value shown
   * (up after a wrong answer, down after a correct one), makes `p` the
   * answerer with the countdown stopped and both indicators hidden, and
   * leaves the hit and miss counters alone.
   */
  lemma UndoRestores(s: PageState, p: PlayerId, currAnswer: Option<string>)
    requires Known(s, p)
    ensures var t := Undone(s, p, currAnswer);
            var value := if s.correctShown then -s.activeValue else s.activeValue;
            && t.playerScores == s.playerScores[p := s.playerScores[p] + value]
            && t.hits == s.hits && t.misses == s.misses
            && t.answeringPlayer == Some(p)
            && t.activeAnswer == (if currAnswer.Some? then currAnswer else s.activeAnswer)
            && !t.correctShown && !t.wrongShown && !t.countdown.running
            && t.activeValue == s.activeValue && t.activePlayers == s.activePlayers
  {
    var value := if s.correctShown then -s.activeValue else s.activeValue;
    var hidden := s.(wrongShown := false);
    var stopped := hidden.(countdown := Stopped(hidden.countdown));
    var restored := if currAnswer.Some? then stopped.(activeAnswer := currAnswer) else stopped;
    assert restored.playerScores == s.playerScores;
  }

  /**
   * `wrongAnswer` takes exactly the value and adds one miss for an answerer,
   * and charges nobody when time ran out with nobody answering.
   */
  lemma WrongAnswerCharges(s: PageState, questionOver: bool, hasRewind: bool)
    requires s.answeringPlayer.Some? ==> Known(s, s.answeringPlayer.value)
    ensures var t := Wronged(s, questionOver, hasRewind);
            && t.hits == s.hits && t.activeValue == s.activeValue && t.activePlayers == s.activePlayers
            && t.wrongShown && t.correctShown == s.correctShown
            && (s.answeringPlayer.Some? ==>
                  var p := s.answeringPlayer.value;
                  && t.playerScores == s.playerScores[p := s.playerScores[p] + -s.activeValue]
                  && t.misses == s.misses[p := s.misses[p] + 1]
                  && t.activePowerUp.None?)
            && (s.answeringPlayer.None? ==> t.playerScores == s.playerScores && t.misses == s.misses)
  {
    var c := Charged(s, questionOver);
    assert Wronged(s, questionOver, hasRewind).playerScores == c.playerScores;
    assert Wronged(s, questionOver, hasRewind).misses == c.misses;
  }

  /** Undoing the answer that moved `p`'s score by `delta` brings the scores back to `before`. */
  lemma UndoTakesBack(before: map<PlayerId, real>, s: PageState, p: PlayerId, delta: real, currAnswer: Option<string>)
    requires Known(s, p) && p in before
    requires s.playerScores == before[p := before[p] + delta]
    requires delta == (if s.correctShown then s.activeValue else -s.activeValue)
    ensures Undone(s, p, currAnswer).playerScores == before
  {
    UndoRestores(s, p, currAnswer);
    assert s.playerScores[p] + -delta == before[p];
    Restored(before, p, s.playerScores[p]);
  }

  /**
   * A correct answer undone from the key handler `afterQuestion` installs
   * restores the score, the answer and the answerer; the hit stays counted.
   */
  lemma CorrectThenUndo(s: PageState, shownTips: nat, wrongAnswers: nat, choices: nat)
    requires s.answeringPlayer.Some? && Known(s, s.answeringPlayer.value)
    requires wrongAnswers > 0 ==> choices > 0
    ensures var p := s.answeringPlayer.value;
            var t := Undone(Corrected(s, shownTips, wrongAnswers, choices), p, s.activeAnswer);
            t.playerScores == s.playerScores
            && t.hits == s.hits[p := s.hits[p] + 1] && t.misses == s.misses
            && t.answeringPlayer == Some(p) && t.activeAnswer == s.activeAnswer
            && !t.countdown.running
  {
    var p := s.answeringPlayer.value;
    var c := Corrected(s, shownTips, wrongAnswers, choices);
    CorrectAnswerCredits(s, shownTips, wrongAnswers, choices);
    UndoTakesBack(s.playerScores, c, p, c.activeValue, s.activeAnswer);
  }

  /**
   * A wrong answer undone (the handler `wrongAnswer` installs passes no
   * answer) restores the score and the answerer; the miss stays counted, and
   * an answer that was revealed stays cleared.
   */
  lemma WrongThenUndo(s: PageState, hasRewind: bool)
    requires s.answeringPlayer.Some? && Known(s, s.answeringPlayer.value) && !s.correctShown
    ensures var p := s.answeringPlayer.value;
            var w := Wronged(s, false, hasRewind);
            var t := Undone(w, p, None);
            t.playerScores == s.playerScores
            && t.misses == s.misses[p := s.misses[p] + 1] && t.hits == s.hits
            && t.answeringPlayer == Some(p)
            && t.activeAnswer == (if WrongOutcomeOf(s, false, hasRewind) == RevealNow then None else s.activeAnswer)
  {
    var p := s.answeringPlayer.value;
    var w := Wronged(s, false, hasRewind);
    WrongAnswerCharges(s, false, hasRewind);
    UndoTakesBack(s.playerScores, w, p, -w.activeValue, None);
  }

  /** Time running out with nobody answering charges nobody and reveals the answer at once. */
  lemma TimeoutChargesNobody(s: PageState, hasRewind: bool)
    requires s.answeringPlayer.None?
    ensures var t := Wronged(s, true, hasRewind);
            t.playerScores == s.playerScores && t.hits == s.hits && t.misses == s.misses
            && WrongOutcomeOf(s, true, hasRewind) == RevealNow
            && t.activeAnswer.None? && t.activePowerUp.None?
  {
  }

  /**
   * A wrong answer with other players still eligible only ends the turn; with
   * nobody left it reveals at once unless the answerer holds rewind, and then
   * the grace period decides: the reveal happens iff rewind was not used.
   */
  lemma WrongAnswerReveal(s: PageState, hasRewind: bool)
    requires s.answeringPlayer.Some? && Known(s, s.answeringPlayer.value)
    ensures var t := Wronged(s, false, hasRewind);
            match WrongOutcomeOf(s, false, hasRewind)
            case NextBuzz =>
              !AllAnswered(s.activePlayers) && t.activeAnswer == s.activeAnswer && t.answeringPlayer.None?
            case RevealNow =>
              AllAnswered(s.activePlayers) && !hasRewind && t.activeAnswer.None? && t.answeringPlayer.None?
            case AwaitRewind =>
              AllAnswered(s.activePlayers) && hasRewind
              && (GraceOver(t).activeAnswer.None? <==> t.activePowerUp != Some(Rewind))
  {
  }

  // ---------------------------------------------------------------------
  // Buzzing in (presenter.js:725-748)

  /** A buzz is dropped entirely while freeze or rewind is in play. */
  predicate BuzzDropped(power: Option<Power>) {
    power.Some? && power.value != Hijack
  }

  /** `p` becomes the answerer by buzzing: eligible, and nobody answering unless hijack is in play. */
  predicate MayAnswer(s: PageState, p: PlayerId) {
    p in s.activePlayers && s.activePlayers[p]
    && (s.answeringPlayer.None? || s.activePowerUp == Some(Hijack))
  }

  /** `playerBuzzedFirst(p)`. */
  function Buzzed(s: PageState, p: PlayerId): PageState {
    if BuzzDropped(s.activePowerUp) then s
    else
      var logged := s.(playersBuzzedIn := s.playersBuzzedIn + [p]);
      if !MayAnswer(s, p) then logged
      else BuzzedIn(logged.(answeringPlayer := Some(p), activePlayers := s.activePlayers[p := false]))
  }

  /**
   * A buzz that is not dropped is logged; it makes `p` the answerer exactly
   * when `p` may answer, and then `p` cannot take the turn by buzzing again.
   */
  lemma BuzzOutcome(s: PageState, p: PlayerId)
    ensures var t := Buzzed(s, p);
            (BuzzDropped(s.activePowerUp) ==> t == s)
            && (!BuzzDropped(s.activePowerUp) ==>
                  t.playersBuzzedIn == s.playersBuzzedIn + [p]
                  && (MayAnswer(s, p) ==> t.answeringPlayer == Some(p) && !MayAnswer(t, p))
                  && (!MayAnswer(s, p) ==>
                        t.answeringPlayer == s.answeringPlayer && t.activePlayers == s.activePlayers))
  {
  }

  // ---------------------------------------------------------------------
  // Power-ups (presenter.js:768-918)

  /** How many buzzes `onRewindUsed(p)` keeps: through `p`'s first buzz, or all of them. */
  function KeptCount(buzzes: seq<PlayerId>, p: PlayerId): (k: nat)
    ensures k <= |buzzes|
    ensures p in buzzes ==> 0 < k && buzzes[k - 1] == p && p !in buzzes[..k - 1]
    ensures p !in buzzes ==> k == |buzzes|
  {
    if |buzzes| == 0 then 0
    else if buzzes[0] == p then 1
    else
      var k := 1 + KeptCount(buzzes[1..], p);
      assert buzzes == [buzzes[0]] + buzzes[1..];
      assert p in buzzes ==> buzzes[..k - 1] == [buzzes[0]] + buzzes[1..][..k - 2];
      k
  }

  /** `ids` each made eligible again, in order. */
  function Reenable(active: map<PlayerId, bool>, ids: seq<PlayerId>): map<PlayerId, bool>
  {
    if |ids| == 0 then active
    else Reenable(active, ids[..|ids| - 1])[ids[|ids| - 1] := true]
  }

  /** Re-enabling marks exactly the listed ids eligible and leaves every other entry as it was. */
  lemma {:induction false} ReenableMarks(active: map<PlayerId, bool>, ids: seq<PlayerId>)
    ensures var r := Reenable(active, ids);
            && r.Keys == active.Keys + (set id | id in ids)
            && forall id | id in r :: r[id] == (id in ids || active[id])
  {
    if |ids| > 0 {
      ReenableMarks(active, ids[..|ids| - 1]);
      assert forall id :: id in ids <==> id in ids[..|ids| - 1] || id == ids[|ids| - 1];
    }
  }

  /**
   * `onRewindUsed(p)`: refunds the value and the miss, drops the buzzes after
   * `p`'s first one, makes their players eligible again, and lets `p` answer.
   */
  function Rewound(s: PageState, p: PlayerId): PageState
    requires Known(s, p)
  {
    var stopped := s.(countdown := Stopped(s.countdown));
    var refunded := StatMoved(ScoreMoved(stopped, p, s.activeValue), p, false, -1);
    var k := KeptCount(s.playersBuzzedIn, p);
    refunded.(activePlayers := Reenable(s.activePlayers, s.playersBuzzedIn[k..]),
              playersBuzzedIn := s.playersBuzzedIn[..k], answeringPlayer := Some(p))
  }

  /** `onRewindUsed(p)` refunds exactly the value and one miss, and lets `p` answer with the countdown stopped. */
  lemma RewindRefunds(s: PageState, p: PlayerId)
    requires Known(s, p)
    ensures var t := Rewound(s, p);
            && t.playerScores == s.playerScores[p := s.playerScores[p] + s.activeValue]
            && t.misses == s.misses[p := s.misses[p] + -1] && t.hits == s.hits
            && t.answeringPlayer == Some(p) && !t.countdown.running && t.activeValue == s.activeValue
  {
    var stopped := s.(countdown := Stopped(s.countdown));
    assert StatMoved(ScoreMoved(stopped, p, s.activeValue), p, false, -1).playerScores
        == s.playerScores[p := s.playerScores[p] + s.activeValue];
  }

  /**
   * Rewind keeps the buzz log up to `p`'s first buzz, makes exactly the
   * players after it eligible, and changes nothing in the log or the
   * eligibility when `p` never buzzed.
   */
  lemma RewindTruncates(s: PageState, p: PlayerId)
    requires Known(s, p)
    ensures var t := Rewound(s, p);
            var b := s.playersBuzzedIn;
            && t.playersBuzzedIn <= b
            && (p in b ==> t.playersBuzzedIn[|t.playersBuzzedIn| - 1] == p
                           && p !in t.playersBuzzedIn[..|t.playersBuzzedIn| - 1])
            && (forall id | id in b[|t.playersBuzzedIn|..] :: id in t.activePlayers && t.activePlayers[id])
            && (forall id | id in s.activePlayers && id !in b[|t.playersBuzzedIn|..] ::
                  id in t.activePlayers && t.activePlayers[id] == s.activePlayers[id])
            && (p !in b ==> t.playersBuzzedIn == b && t.activePlayers == s.activePlayers)
            && t.answeringPlayer == Some(p)
  {
    var b := s.playersBuzzedIn;
    var k := KeptCount(b, p);
    ReenableMarks(s.activePlayers, b[k..]);
    if p !in b {
      assert b[k..] == [];
      assert b[..k] == b;
    }
  }

  /** Rewind after a wrong answer gives back both the deducted value and the miss. */
  lemma WrongThenRewind(s: PageState, hasRewind: bool)
    requires s.answeringPlayer.Some? && Known(s, s.answeringPlayer.value)
    ensures var p := s.answeringPlayer.value;
            var t := Rewound(Wronged(s, false, hasRewind).(activePowerUp := Some(Rewind)), p);
            t.playerScores == s.playerScores && t.misses == s.misses && t.hits == s.hits
            && t.answeringPlayer == Some(p)
  {
    var p := s.answeringPlayer.value;
    var w := Wronged(s, false, hasRewind).(activePowerUp := Some(Rewind));
    WrongAnswerCharges(s, false, hasRewind);
    RewindRefunds(w, p);
    var t := Rewound(w, p);
    assert w.playerScores[p] + w.activeValue == s.playerScores[p];
    Restored(s.playerScores, p, w.playerScores[p]);
    assert w.misses[p] + -1 == s.misses[p];
    Restored(s.misses, p, w.misses[p]);
  }

  /** Re-enabling one more id extends the previous result by that id. */
  lemma ReenableSnoc(active: map<PlayerId, bool>, ids: seq<PlayerId>, x: PlayerId)
    ensures Reenable(active, ids + [x]) == Reenable(active, ids)[x := true]
  {
    assert (ids + [x])[..|ids|] == ids;
  }

  /** Before `p`'s first buzz, the buzz at `i` is `p`'s exactly when it is the last one kept. */
  lemma KeptCountStep(buzzes: seq<PlayerId>, p: PlayerId, i: nat)
    requires i < |buzzes| && (p in buzzes ==> i < KeptCount(buzzes, p))
    ensures buzzes[i] == p <==> p in buzzes && KeptCount(buzzes, p) == i + 1
  {
    var k := KeptCount(buzzes, p);
    if p in buzzes {
      forall j | 0 <= j < k - 1
        ensures buzzes[j] != p
      {
        assert buzzes[..k - 1][j] == buzzes[j];
      }
    }
  }

  /**
   * The loop of `onRewindUsed(p)` over the buzz log: buzzes up to and
   * including `p`'s first one are kept, and the players of the later ones
   * become eligible again.
   */

  method RebuildBuzzes(buzzes: seq<PlayerId>, p: PlayerId, active0: map<PlayerId, bool>)
    returns (filtered: seq<PlayerId>, active: map<PlayerId, bool>)
    ensures filtered == buzzes[..KeptCount(buzzes, p)]
    ensures active == Reenable(active0, buzzes[KeptCount(buzzes, p)..])
  {
    ghost var k := KeptCount(buzzes, p);
    ghost var reenabled: seq<PlayerId> := [];
    active := active0;
    var afterPlayer := false;
    filtered := [];
    var i := 0;
    while i < |buzzes|
      invariant 0 <= i <= |buzzes|
      invariant afterPlayer <==> p in buzzes && k <= i
      invariant active == Reenable(active0, reenabled)
      invariant !afterPlayer ==> filtered == buzzes[..i] && reenabled == []
      invariant afterPlayer ==> filtered == buzzes[..k] && reenabled == buzzes[k..i]
    {
      var b := buzzes[i];
      if afterPlayer {
        ReenableSnoc(active0, reenabled, b);
        assert buzzes[k..i + 1] == reenabled + [b];
        reenabled := reenabled + [b];
        active := active[b := true];
      } else {
        filtered := filtered + [b];
        KeptCountStep(buzzes, p, i);
      }
      if b == p {
        if !afterPlayer {
          assert buzzes[k..i + 1] == [];
        }
        afterPlayer := true;
      }
      i := i + 1;
    }
    if afterPlayer {
      assert buzzes[k..i] == buzzes[k..];
    } else {
      assert buzzes[k..] == [];
    }
  }


  /** The same value for every player of `ids`. */
  function AllSetTo(ids: seq<PlayerId>, v: bool): (m: map<PlayerId, bool>)
    ensures m.Keys == set id | id in ids
    ensures forall id | id in m :: m[id] == v
  {
    map id | id in ids :: v
  }

  /** The `forEach` over the players that fills a fresh eligibility map. */
  method SetAll(ids: seq<PlayerId>, v: bool) returns (m: map<PlayerId, bool>)
    ensures m == AllSetTo(ids, v)
  {
    m := map[];
    var i := 0;
    while i < |ids|
      invariant 0 <= i <= |ids|
      invariant m == AllSetTo(ids[..i], v)
    {
      assert forall id :: id in ids[..i + 1] <==> id in ids[..i] || id == ids[i];
      m := m[ids[i] := v];
      i := i + 1;
    }
    assert ids[..i] == ids;
  }

  /** `onHijackUsed(p, ...)`'s eligibility: every player false, then `p` true. */
  function SoleEligible(ids: seq<PlayerId>, p: PlayerId): (m: map<PlayerId, bool>)
    ensures m.Keys == (set id | id in ids) + {p}
    ensures forall id | id in m :: m[id] == (id == p)
  {
    AllSetTo(ids, false)[p := true]
  }

  /**
   * `onHijackUsed(p)`: the countdown pauses, the bonus is decided by whether
   * the question was still hidden, and only `p` stays eligible; the countdown
   * stops when there is no bonus and someone was answering.
   */
  function Hijacked(s: PageState, ids: seq<PlayerId>, p: PlayerId, beforeQuestion: bool): PageState {
    var paused := Paused(s.countdown, true);
    s.(hijackBonus := beforeQuestion, activePlayers := SoleEligible(ids, p),
       countdown := if !beforeQuestion && s.answeringPlayer.Some? then Stopped(paused) else paused)
  }

  /** `afterHijackUsed(p)`: takes over the answer when there is no bonus, then resumes the countdown. */
  function HijackDone(s: PageState, p: PlayerId): PageState {
    if !s.hijackBonus && s.answeringPlayer.Some? then
      // afterBuzzIn stops the countdown, so resuming it does nothing
      s.(answeringPlayer := Some(p), countdown := Stopped(s.countdown), correctShown := false, wrongShown := false)
    else s.(countdown := Paused(s.countdown, false))
  }

  /**
   * After hijack only its user may take the turn by buzzing, and a hijack
   * during someone's answer hands the answer to its user with the countdown
   * stopped.
   */
  lemma HijackLeavesOnePlayer(s: PageState, ids: seq<PlayerId>, p: PlayerId, beforeQuestion: bool)
    ensures var t := Hijacked(s.(activePowerUp := Some(Hijack)), ids, p, beforeQuestion);
            && (forall q | MayAnswer(t, q) :: q == p)
            && (s.answeringPlayer.None? ==> MayAnswer(t, p))
            && (!beforeQuestion && s.answeringPlayer.Some? ==>
                  HijackDone(t, p).answeringPlayer == Some(p) && !HijackDone(t, p).countdown.running)
            && (beforeQuestion ==> HijackDone(t, p).answeringPlayer == s.answeringPlayer)
  {
  }

  /** `afterFreezeUsed`, when the freeze time is over: an answerer's countdown resumes. */
  function FreezeDone(s: PageState): PageState {
    if s.answeringPlayer.Some? then s.(countdown := Paused(s.countdown, false)) else s
  }

  /** `powerUpUsed(p, power)`: the power becomes active and its handler runs. */
  function PowerUsed(s: PageState, ids: seq<PlayerId>, p: PlayerId, power: Power, beforeQuestion: bool): PageState
    requires power == Rewind ==> Known(s, p)
  {
    var t := s.(activePowerUp := Some(power));
    match power
    case Freeze => t.(countdown := Paused(t.countdown, true))
    case Rewind => Rewound(t, p)
    case Hijack => Hijacked(t, ids, p, beforeQuestion)
  }

  /** Freeze stops the clock for the answerer: a frozen countdown never expires. */
  lemma FreezeHoldsCountdown(s: PageState, ids: seq<PlayerId>, p: PlayerId, n: nat)
    requires s.countdown.running
    ensures var t := PowerUsed(s, ids, p, Freeze, false);
            Ticks(t.countdown, n) == TickRun(t.countdown, 0) && t.activePowerUp == Some(Freeze)
  {
    var t := PowerUsed(s, ids, p, Freeze, false);
    ExpiresOnce(t.countdown, n);
  }

  /** `showQuestion`: when nobody has an entry yet, every player may buzz, except on a daily double. */
  function QuestionShown(s: PageState, ids: seq<PlayerId>, dailyDouble: bool): PageState {
    if |s.activePlayers| == 0 then s.(activePlayers := AllSetTo(ids, !dailyDouble)) else s
  }

  /** On a fresh question every player may buzz in; on a daily double nobody may. */
  lemma ShownQuestionEligibility(s: PageState, ids: seq<PlayerId>, dailyDouble: bool)
    requires |s.activePlayers| == 0 && s.answeringPlayer.None?
    ensures var t := QuestionShown(s, ids, dailyDouble);
            forall q :: MayAnswer(t, q) <==> q in ids && !dailyDouble
  {
  }

  /**
   * The page `initialize` sets up: nobody eligible, no buzzes, no power-up
   * and no countdown; on a daily double the turn holder answers.
   */
  function Initialized(scores: map<PlayerId, real>, hitCounts: map<PlayerId, int>, missCounts: map<PlayerId, int>,
                       turn: Option<PlayerId>, answer: Option<string>, value: real, dailyDouble: bool): PageState
  {
    PageState(map[], [], if dailyDouble then turn else None, None, false, value, answer, scores,
              hitCounts, missCounts, turn, false, false, Countdown(false, false, 0, 0))
  }

  /**
   * On a daily double the turn holder answers without buzzing in: a correct
   * answer credits them the value and keeps their turn, and nobody else
   * may buzz in meanwhile. Off a daily double nobody is answering.
   */
  lemma DailyDoubleTurnHolderAnswers(scores: map<PlayerId, real>, hitCounts: map<PlayerId, int>,
                                     missCounts: map<PlayerId, int>, p: PlayerId, answer: Option<string>,
                                     value: real, shownTips: nat, wrongAnswers: nat, choices: nat)
    requires p in scores && p in hitCounts && p in missCounts
    requires wrongAnswers > 0 ==> choices > 0
    ensures var s := Initialized(scores, hitCounts, missCounts, Some(p), answer, value, true);
            var v := AwardedValue(value, shownTips, wrongAnswers, choices, false) as real;
            var t := Corrected(s, shownTips, wrongAnswers, choices);
            && s.answeringPlayer == Some(p)
            && (forall q :: !MayAnswer(s, q))
            && t.playerScores == scores[p := scores[p] + v]
            && t.hits == hitCounts[p := hitCounts[p] + 1] && t.misses == missCounts
            && t.playerTurn == Some(p)
    ensures forall turn :: Initialized(scores, hitCounts, missCounts, turn, answer, value, false).answeringPlayer.None?
  {
  }

  // ---------------------------------------------------------------------
  // The page

  /**
   * The question page. Its globals are held as one `PageState` record that
   * every handler updates field by field.
   */
  class Presenter {
    const playerIds: seq<PlayerId>
    const isDailyDouble: bool
    var page: PageState

    /**
     * `initialize(...)` on the question page: players, their scores, the
     * turn holder (`turn`, the last player flagged `has_turn`), and the
     * question's answer and value; on a daily double the turn holder is the
     * one answering.
     */
    constructor (ids: seq<PlayerId>, scores: map<PlayerId, real>, hitCounts: map<PlayerId, int>,
                 missCounts: map<PlayerId, int>, turn: Option<PlayerId>, answer: Option<string>,
                 value: real, dailyDouble: bool)
      ensures playerIds == ids && isDailyDouble == dailyDouble
      ensures page == Initialized(scores, hitCounts, missCounts, turn, answer, value, dailyDouble)
    {
      playerIds := ids;
      isDailyDouble := dailyDouble;
      page := PageState(map[], [], if dailyDouble then turn else None, None, false, value, answer, scores,
                        hitCounts, missCounts, turn, false, false, Countdown(false, false, 0, 0));
    }

    method StopCountdown()
      modifies this
      ensures page == old(page).(countdown := Stopped(old(page.countdown)))
    {
      page := page.(countdown := page.countdown.(running := false, paused := false));
    }

    method PauseCountdown(paused: bool)
      modifies this
      ensures page == old(page).(countdown := Paused(old(page.countdown), paused))
    {
      if page.countdown.running {
        page := page.(countdown := page.countdown.(paused := paused));
      }
    }

    method StartCountdown(duration: nat)
      modifies this
      ensures page == old(page).(countdown := Started(duration))
    {
      if page.countdown.running {
        StopCountdown();
      }
      page := page.(countdown := Countdown(true, false, 0, duration * 1000));
    }

    /**
     * One firing of the countdown's interval. When it returns true the
     * countdown has just stopped and the page runs its callback, or
     * `WrongAnswer` with `questionOver` when there is none.
     */
    method Tick() returns (expired: bool)
      modifies this
      ensures page == old(page).(countdown := Ticked(old(page.countdown)).countdown)
      ensures expired == Ticked(old(page.countdown)).expired
    {
      expired := false;
      if !page.countdown.running || page.countdown.paused {
        return;
      }
      page := page.(countdown := page.countdown.(currTime := page.countdown.currTime + 30));
      if page.countdown.currTime >= page.countdown.durationMillis {
        StopCountdown();
        expired := true;
      }
    }

    method AfterBuzzIn()
      modifies this
      ensures page == BuzzedIn(old(page))
    {
      StopCountdown();
      page := page.(correctShown := false);
      page := page.(wrongShown := false);
    }

    method UpdatePlayerScore(p: PlayerId, delta: real)
      requires p in page.playerScores
      modifies this
      ensures page == ScoreMoved(old(page), p, delta)
    {
      page := page.(playerScores := page.playerScores[p := page.playerScores[p] + delta]);
    }

    method UpdatePlayerBuzzStats(p: PlayerId, hit: bool, delta: int)
      requires if hit then p in page.hits else p in page.misses
      modifies this
      ensures page == StatMoved(old(page), p, hit, delta)
    {
      if hit {
        page := page.(hits := page.hits[p := page.hits[p] + delta]);
      } else {
        page := page.(misses := page.misses[p := page.misses[p] + delta]);
      }
    }

    method AfterQuestion()
      modifies this
      ensures page == QuestionOver(old(page))
    {
      page := page.(activeAnswer := None);
    }

    method AfterAnswer()
      modifies this
      ensures page == AnswerOver(old(page))
    {
      page := page.(answeringPlayer := None);
    }

    method CorrectAnswer(shownTips: nat, wrongAnswers: nat, choices: nat)
      requires page.answeringPlayer.Some? && Known(page, page.answeringPlayer.value)
      requires wrongAnswers > 0 ==> choices > 0
      modifies this
      ensures page == Corrected(old(page), shownTips, wrongAnswers, choices)
    {
      var p := page.answeringPlayer.value;
      page := page.(activePowerUp := None);
      // tips halve the value, wrong choices scale it down, a hijack adds half, and it is rounded up
      var v := page.activeValue * (1.0 / Pow2(shownTips));
      if wrongAnswers > 0 {
        v := v - v * (wrongAnswers as real / choices as real);
      }
      if page.hijackBonus {
        v := v * 1.5;
      }
      assert v == AwardedValueBeforeCeil(page.activeValue, shownTips, wrongAnswers, choices, page.hijackBonus);
      page := page.(activeValue := Ceil(v) as real);
      page := page.(correctShown := true);
      UpdatePlayerScore(p, page.activeValue);
      UpdatePlayerBuzzStats(p, true, 1);
      if page.playerTurn != Some(p) {
        page := page.(playerTurn := Some(p));
      }
      AfterQuestion();
      AfterAnswer();
    }

    /** The scoring half of `wrongAnswer`. */
    method ChargeWrongAnswer(questionOver: bool)
      requires page.answeringPlayer.Some? ==> Known(page, page.answeringPlayer.value)
      modifies this
      ensures page == Charged(old(page), questionOver)
    {
      var outOfTime := questionOver && page.answeringPlayer.None?;
      if outOfTime {
        page := page.(activePowerUp := None);
      }
      page := page.(wrongShown := true);
      if page.answeringPlayer.Some? {
        var p := page.answeringPlayer.value;
        UpdatePlayerScore(p, -page.activeValue);
        UpdatePlayerBuzzStats(p, false, 1);
        page := page.(activePowerUp := None);
      }
    }

    method WrongAnswer(questionOver: bool, hasRewind: bool) returns (outcome: WrongOutcome)
      requires page.answeringPlayer.Some? ==> Known(page, page.answeringPlayer.value)
      modifies this
      ensures outcome == WrongOutcomeOf(old(page), questionOver, hasRewind)
      ensures page == Wronged(old(page), questionOver, hasRewind)
    {
      var outOfTime := questionOver && page.answeringPlayer.None?;
      ChargeWrongAnswer(questionOver);
      if outOfTime || AllAnswered(page.activePlayers) {
        var playerHasRewind := page.answeringPlayer.Some? && hasRewind;
        if !outOfTime && playerHasRewind {
          outcome := AwaitRewind;
        } else {
          outcome := RevealNow;
          AfterQuestion();   // revealAnswer
          AfterAnswer();
        }
      } else {
        outcome := NextBuzz;
        AfterAnswer();
      }
    }

    method RewindGraceOver() returns (revealed: bool)
      modifies this
      ensures revealed <==> old(page.activePowerUp) != Some(Rewind)
      ensures page == GraceOver(old(page))
    {
      revealed := page.activePowerUp != Some(Rewind);
      if revealed {
        AfterQuestion();   // revealAnswer
        AfterAnswer();
      }
    }

    method UndoAnswer(p: PlayerId, currAnswer: Option<string>)
      requires Known(page, p)
      modifies this
      ensures page == Undone(old(page), p, currAnswer)
    {
      var wrong := !page.correctShown;
      page := page.(wrongShown := false);
      StopCountdown();
      if currAnswer.Some? {
        page := page.(activeAnswer := currAnswer);
      }
      var value := if wrong then page.activeValue else -page.activeValue;
      UpdatePlayerScore(p, value);
      page := page.(answeringPlayer := Some(p));
      AfterBuzzIn();
    }

    method PlayerBuzzedFirst(p: PlayerId)
      modifies this
      ensures page == Buzzed(old(page), p)
    {
      if page.activePowerUp.Some? && page.activePowerUp != Some(Hijack) {
        return;
      }
      page := page.(playersBuzzedIn := page.playersBuzzedIn + [p]);
      if !(p in page.activePlayers && page.activePlayers[p])
         || (page.answeringPlayer.Some? && page.activePowerUp != Some(Hijack)) {
        return;
      }
      page := page.(answeringPlayer := Some(p));
      page := page.(activePlayers := page.activePlayers[p := false]);
      AfterBuzzIn();
    }

    method OnRewindUsed(p: PlayerId)
      requires Known(page, p)
      modifies this
      ensures page == Rewound(old(page), p)
    {
      StopCountdown();
      UpdatePlayerScore(p, page.activeValue);
      UpdatePlayerBuzzStats(p, false, -1);
      var filtered, active := RebuildBuzzes(page.playersBuzzedIn, p, page.activePlayers);
      page := page.(activePlayers := active);
      page := page.(playersBuzzedIn := filtered);
      page := page.(answeringPlayer := Some(p));
    }

    /** When the rewind video ends the player answers again. */
    method AfterRewindUsed()
      modifies this
      ensures page == BuzzedIn(old(page))
    {
      AfterBuzzIn();
    }

    method OnHijackUsed(p: PlayerId, beforeQuestion: bool)
      modifies this
      ensures page == Hijacked(old(page), playerIds, p, beforeQuestion)
    {
      PauseCountdown(true);
      page := page.(hijackBonus := beforeQuestion);
      var eligible := SetAll(playerIds, false);
      page := page.(activePlayers := eligible[p := true]);
      if !page.hijackBonus && page.answeringPlayer.Some? {
        StopCountdown();
      }
    }

    method AfterHijackUsed(p: PlayerId)
      modifies this
      ensures page == HijackDone(old(page), p)
    {
      if !page.hijackBonus && page.answeringPlayer.Some? {
        page := page.(answeringPlayer := Some(p));
        AfterBuzzIn();
      }
      PauseCountdown(false);
    }

    /** The freeze period ends. */
    method AfterFreezeUsed()
      modifies this
      ensures page == FreezeDone(old(page))
    {
      if page.answeringPlayer.Some? {
        PauseCountdown(false);
      }
    }

    method PowerUpUsed(p: PlayerId, power: Power, beforeQuestion: bool)
      requires power == Rewind ==> Known(page, p)
      modifies this
      ensures page == PowerUsed(old(page), playerIds, p, power, beforeQuestion)
    {
      page := page.(activePowerUp := Some(power));
      match power {
        case Freeze => PauseCountdown(true);
        case Rewind => OnRewindUsed(p);
        case Hijack => OnHijackUsed(p, beforeQuestion);
      }
    }

    method ShowQuestion()
      modifies this
      ensures page == QuestionShown(old(page), playerIds, isDailyDouble)
    {
      if |page.activePlayers| == 0 {
        var eligible := SetAll(playerIds, !isDailyDouble);
        page := page.(activePlayers := eligible);
      }
    }
  }

  // ---------------------------------------------------------------------
  // Keys (presenter.js:475-478, 502-560, 1193-1234, 1562-1644)

  /** `keyIsNumeric(key, min, max)`: the key is one of the numbers `min..max` written out. */
  function KeyIsNumeric(key: string, min: int, max: int): bool
    requires min <= max + 1
  {
    key in seq(max - min + 1, i => IntToString(i + min))
  }

  lemma KeyIsNumericIff(key: string, min: int, max: int)
    requires min <= max + 1
    ensures KeyIsNumeric(key, min, max) <==> exists n :: min <= n <= max && key == IntToString(n)
  {
    var keys := seq(max - min + 1, i => IntToString(i + min));
    assert KeyIsNumeric(key, min, max) ==> exists n :: min <= n <= max && key == IntToString(n) by {
      if key in keys {
        var i :| 0 <= i < |keys| && keys[i] == key;
        assert min <= i + min <= max && key == IntToString(i + min);
      }
    }
    assert (exists n :: min <= n <= max && key == IntToString(n)) ==> KeyIsNumeric(key, min, max) by {
      if n :| min <= n <= max && key == IntToString(n) {
        assert keys[n - min] == key;
      }
    }
  }

  /** The state of one answer choice, from its CSS classes. */
  datatype ChoiceState = Open | Answering | AnsweredWrong | AnsweredCorrect

  /** What a key press during a question does. */
  datatype KeyAction =
    | Ignored
    | ChoicePicked(choice: nat)   // choice `choice` is highlighted; it is graded after 2.5 s
    | MissingChoice               // no element for the key: the page raises a TypeError
    | GradeCorrect
    | GradeWrong

  /**
   * `answerQuestion`: a number key from 1 to `max(choices, 2)` picks an open
   * choice when there are choices, and otherwise 1 grades the answer correct
   * and any other number wrong.
   */
  function AnswerKey(key: string, choices: seq<ChoiceState>): KeyAction {
    var n := |choices|;
    if !KeyIsNumeric(key, 1, if n > 2 then n else 2) then Ignored
    else if n > 0 then
      match ParseJsInt(key)
      case Int(k) =>
        if 1 <= k <= n then (if choices[k - 1] == Open then ChoicePicked(k) else Ignored)
        else MissingChoice
      case NaN => MissingChoice
    else if key == "1" then GradeCorrect
    else GradeWrong
  }

  /** The number keys pick their own choice when it is still open; other keys do nothing. */
  lemma AnswerKeyWithChoices(choices: seq<ChoiceState>, k: int)
    requires 1 <= k <= |choices|
    ensures AnswerKey(IntToString(k), choices) == if choices[k - 1] == Open then ChoicePicked(k) else Ignored
  {
    var n := |choices|;
    KeyIsNumericIff(IntToString(k), 1, if n > 2 then n else 2);
    ParseJsIntOfIntToString(k);
  }

  /** Without choices, 1 is correct, 2 is wrong, and 3 does nothing. */
  lemma AnswerKeyWithoutChoices()
    ensures AnswerKey("1", []) == GradeCorrect
    ensures AnswerKey("2", []) == GradeWrong
    ensures AnswerKey("3", []) == Ignored
  {
    KeyIsNumericIff("1", 1, 2);
    KeyIsNumericIff("2", 1, 2);
    KeyIsNumericIff("3", 1, 2);
    assert IntToString(1) == "1" && IntToString(2) == "2";
    forall n | 1 <= n <= 2
      ensures "3" != IntToString(n)
    {
      assert IntToString(n) == NatToString(n);
    }
  }

  /** A picked choice is graded by comparing its text with the answer. */
  function GradeChoice(text: string, activeAnswer: Option<string>): (a: KeyAction)
    ensures a == GradeCorrect <==> activeAnswer == Some(text)
    ensures a == GradeCorrect || a == GradeWrong
  {
    if activeAnswer == Some(text) then GradeCorrect else GradeWrong
  }

  const GridRows := 5

  /** The last box the selection grid's arithmetic reaches. */
  function MaxIndex(cols: nat): nat {
    (cols + 1) * GridRows - 1
  }

  /**
   * `tabulateCategorySelection(key, cols)` once the selected box is known:
   * right and left move by `cols` and wrap around, up and down move by one
   * and stop at the ends; other keys keep the selection.
   */
  function NextSelection(key: string, cols: nat, selected: Option<nat>): (r: int)
    ensures (selected.None? || selected.value <= MaxIndex(cols)) ==> 0 <= r <= MaxIndex(cols)
  {
    var maxIndex := MaxIndex(cols);
    var idx := if selected.Some? then selected.value else 0;
    if key == "ArrowRight" then
      var next := if selected.None? then 0 else idx + cols;
      if next > maxIndex then next - maxIndex - 1 else next
    else if key == "ArrowLeft" then
      var next := if selected.None? then cols * GridRows else idx - cols;
      if next < 0 then maxIndex + next + 1 else next
    else if key == "ArrowUp" then
      if selected.None? then cols else if idx - 1 > 0 then idx - 1 else 0
    else if key == "ArrowDown" then
      if selected.None? then 0 else if idx + 1 < maxIndex then idx + 1 else maxIndex
    else idx
  }

  /** Left undoes right and right undoes left, wrap-around included. */
  lemma LeftRightInverse(cols: nat, i: nat)
    requires i <= MaxIndex(cols)
    ensures var r := NextSelection("ArrowRight", cols, Some(i));
            NextSelection("ArrowLeft", cols, Some(r as nat)) == i
    ensures var l := NextSelection("ArrowLeft", cols, Some(i));
            NextSelection("ArrowRight", cols, Some(l as nat)) == i
  {
  }

  /** Up undoes down away from the last box, and down undoes up away from the first. */
  lemma UpDownInverse(cols: nat, i: nat)
    requires i <= MaxIndex(cols)
    ensures i < MaxIndex(cols) ==>
              NextSelection("ArrowUp", cols, Some(NextSelection("ArrowDown", cols, Some(i)) as nat)) == i
    ensures 0 < i ==>
              NextSelection("ArrowDown", cols, Some(NextSelection("ArrowUp", cols, Some(i)) as nat)) == i
  {
  }

  predicate IsSelectedBox(classes: set<string>) {
    "selected" in classes
  }

  /** `tabulateCategorySelection(key, cols)`: finds the selected box, then moves the selection. */
  method TabulateCategorySelection(key: string, cols: nat, boxes: seq<set<string>>) returns (selectedIndex: int)
    ensures selectedIndex == NextSelection(key, cols, FirstIndex(boxes, IsSelectedBox))
    ensures (forall j :: 0 <= j < |boxes| ==> !IsSelectedBox(boxes[j])) || FirstIndex(boxes, IsSelectedBox).value <= MaxIndex(cols)
            ==> 0 <= selectedIndex <= MaxIndex(cols)
  {
    var selected: Option<nat> := None;
    var i := 0;
    while i < |boxes|
      invariant 0 <= i <= |boxes|
      invariant forall j :: 0 <= j < i ==> !IsSelectedBox(boxes[j])
      invariant selected.None?
    {
      if IsSelectedBox(boxes[i]) {
        selected := Some(i);
        break;
      }
      i := i + 1;
    }
    assert selected == FirstIndex(boxes, IsSelectedBox);
    selectedIndex := NextSelection(key, cols, selected);
  }

  /** What a key press on a finale result does. */
  datatype FinaleAction =
    | AnswerSkipped               // the player wagered nothing
    | FinaleCorrect(amount: JsNumber)  // emits `finale_answer_correct`
    | FinaleWrong(amount: JsNumber)    // emits `finale_answer_wrong`
    | NextResult
    | NoAction

  /** The wager shown for a player: the locale's "nothing" counts as 0. */
  function FinaleAmount(amountText: string, nothing: string): JsNumber {
    if amountText != nothing then ParseJsInt(amountText) else Int(0)
  }

  /**
   * A key press while one player's finale result is shown (`showFinaleResult`):
   * 1 and 2 grade the wager correct or wrong unless it is 0, and the action key
   * moves to the next player.
   */
  function FinaleKey(key: string, isActionKey: bool, amountText: string, nothing: string): (a: FinaleAction)
    ensures a.FinaleCorrect? ==> key == "1" && a.amount != Int(0)
    ensures a.FinaleWrong? ==> key == "2" && a.amount != Int(0)
    ensures (key == "1" || key == "2") <==> a.AnswerSkipped? || a.FinaleCorrect? || a.FinaleWrong?
  {
    var amount := FinaleAmount(amountText, nothing);
    if key == "1" || key == "2" then
      if amount == Int(0) then AnswerSkipped
      else if key == "1" then FinaleCorrect(amount)
      else FinaleWrong(amount)
    else if isActionKey then NextResult
    else NoAction
  }

  /** A wager written out is reported as that amount; "nothing" and 0 are skipped. */
  lemma FinaleWagerReported(wager: int, nothing: string)
    requires wager != 0 && IntToString(wager) != nothing
    ensures FinaleKey("1", false, IntToString(wager), nothing) == FinaleCorrect(Int(wager))
    ensures FinaleKey("2", false, IntToString(wager), nothing) == FinaleWrong(Int(wager))
    ensures FinaleKey("1", false, nothing, nothing) == AnswerSkipped
    ensures FinaleKey("2", false, nothing, nothing) == AnswerSkipped
  {
    ParseJsIntOfIntToString(wager);
  }

  // ---------------------------------------------------------------------
  // Score animation (presenter.js:149-178)

  datatype ScoreTier = Small | Medium | Large | Huge

  /** The animation a score change plays: its size and whether it is shown as a gain. */
  datatype ScoreAnimation = ScoreAnimation(tier: ScoreTier, correct: bool)

  function Abs(x: real): real {
    if x < 0.0 then -x else x
  }

  function TierRank(t: ScoreTier): nat {
    match t
    case Small => 0
    case Medium => 1
    case Large => 2
    case Huge => 3
  }

  function AnimationOf(delta: real): (a: ScoreAnimation)
    ensures a.correct <==> delta >= 0.0
    ensures a.tier == Small <==> Abs(delta) < 500.0
    ensures a.tier == Huge <==> Abs(delta) >= 1500.0
  {
    var absDelta := Abs(delta);
    var tier :=
      if absDelta < 500.0 then Small
      else if absDelta < 1000.0 then Medium
      else if absDelta < 1500.0 then Large
      else Huge;
    ScoreAnimation(tier, delta >= 0.0)
  }

  /** A larger change never plays a smaller animation. */
  lemma TierMonotone(a: real, b: real)
    requires Abs(a) <= Abs(b)
    ensures TierRank(AnimationOf(a).tier) <= TierRank(AnimationOf(b).tier)
  {
  }

  /** Undoing a change plays the same size of animation in the opposite colour. */
  lemma UndoAnimationMirrors(delta: real)
    requires delta != 0.0
    ensures AnimationOf(-delta).tier == AnimationOf(delta).tier
    ensures AnimationOf(-delta).correct == !AnimationOf(delta).correct
  {
  }
}
