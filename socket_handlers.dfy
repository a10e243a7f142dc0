/**
 * The real-time game namespace of the server: per-game flags (`GameMetadata`),
 * per-contestant buzz state (`ContestantMetadata`, kept in joining order) and
 * the event handlers that update contestants' scores, turns, power-ups and
 * wagers.
 *
 * Every update of one contestant is a pure function on the contestant list,
 * so that its properties (round trips, turn ownership) are lemmas; the class
 * methods apply those functions to the game's state. A handler whose source
 * raises (an unknown contestant, a missing power-up) leaves the game as it
 * was and reports failure.
 */
module SocketHandlers {
  import opened Wrappers
  import opened SeqUtil
  import opened Text
  import opened Orm

  predicate Distinct<T(==)>(s: seq<T>) {
    forall j, k :: 0 <= j < k < |s| ==> s[j] != s[k]
  }

  /** No two game contestants share an id. */
  predicate UniqueIds(cs: seq<GameContestant>) {
    forall j, k :: 0 <= j < k < |cs| ==> cs[j].id != cs[k].id
  }

  /** `b` lists the same game contestants as `a`, in the same order. */
  predicate SameIds(a: seq<GameContestant>, b: seq<GameContestant>) {
    |a| == |b| && forall j :: 0 <= j < |a| ==> a[j].id == b[j].id
  }

  predicate AtMostOneTurn(cs: seq<GameContestant>) {
    forall j, k :: 0 <= j < k < |cs| ==> !(cs[j].hasTurn && cs[k].hasTurn)
  }

  /** `get_game_contestant` finds a contestant with this id. */
  predicate IsGameContestant(cs: seq<GameContestant>, id: string) {
    GetGameContestant(cs, Some(id)).Some?
  }

  /** Position of the game contestant with this id: where `get_game_contestant` finds it. */
  function ContestantIndex(cs: seq<GameContestant>, id: string): (i: nat)
    requires IsGameContestant(cs, id)
    ensures i < |cs| && cs[i].id == id
    ensures forall k :: 0 <= k < i ==> cs[k].id != id
  {
    GetGameContestant(cs, Some(id)).value
  }

  lemma ContestantIndexUnique(cs: seq<GameContestant>, j: nat)
    requires UniqueIds(cs) && j < |cs|
    ensures IsGameContestant(cs, cs[j].id) && ContestantIndex(cs, cs[j].id) == j
  {
  }

  /** Updates that keep every contestant's id find every contestant where it was. */
  lemma SameIdsSameLookup(a: seq<GameContestant>, b: seq<GameContestant>, id: string)
    requires SameIds(a, b)
    ensures GetGameContestant(a, Some(id)) == GetGameContestant(b, Some(id))
  {
  }

  // ---------------------------------------------------------------------
  // Score and turn updates of a single contestant.
  // ---------------------------------------------------------------------

  /**
   * `on_correct_answer`: one more hit, `value` more points and the turn; the
   * contestant who held the turn before (looked up first) loses it.
   */
  function CorrectAnswerUpdate(cs: seq<GameContestant>, i: nat, value: int): (r: seq<GameContestant>)
    requires i < |cs|
    ensures SameIds(cs, r)
    ensures |r| == |cs|
    ensures r[i] == cs[i].(hits := cs[i].hits + 1, score := cs[i].score + value, hasTurn := true)
    ensures forall j :: 0 <= j < |cs| && j != i ==> r[j] == cs[j].(hasTurn := r[j].hasTurn)
    ensures forall j :: 0 <= j < |cs| && j != i && r[j].hasTurn ==> cs[j].hasTurn
    ensures UniqueIds(cs) && AtMostOneTurn(cs) ==> forall j :: 0 <= j < |r| ==> (r[j].hasTurn <==> j == i)
  {
    var holder := GetContestantWithTurn(cs);
    var awarded := cs[i := cs[i].(hits := cs[i].hits + 1, score := cs[i].score + value, hasTurn := true)];
    if holder.Some? && cs[holder.value].id != cs[i].id then
      awarded[holder.value := awarded[holder.value].(hasTurn := false)]
    else awarded
  }

  /** `on_wrong_answer`: one more miss and `value` fewer points. */
  function WrongAnswerUpdate(cs: seq<GameContestant>, i: nat, value: int): (r: seq<GameContestant>)
    requires i < |cs|
    ensures SameIds(cs, r)
    ensures |r| == |cs| && forall j :: 0 <= j < |cs| && j != i ==> r[j] == cs[j]
    ensures r[i] == cs[i].(misses := cs[i].misses + 1, score := cs[i].score - value)
  {
    cs[i := cs[i].(misses := cs[i].misses + 1, score := cs[i].score - value)]
  }

  /** `on_rewind_used`: refund `value` points and take back one miss. */
  function RewindUpdate(cs: seq<GameContestant>, i: nat, value: int): (r: seq<GameContestant>)
    requires i < |cs|
    ensures SameIds(cs, r)
    ensures |r| == |cs| && forall j :: 0 <= j < |cs| && j != i ==> r[j] == cs[j]
    ensures r[i] == cs[i].(misses := cs[i].misses - 1, score := cs[i].score + value)
  {
    cs[i := cs[i].(misses := cs[i].misses - 1, score := cs[i].score + value)]
  }

  /** `on_undo_answer`: a negative `value` takes back a hit, any other value a miss; the score moves by `value`. */
  function UndoAnswerUpdate(cs: seq<GameContestant>, i: nat, value: int): (r: seq<GameContestant>)
    requires i < |cs|
    ensures SameIds(cs, r)
    ensures |r| == |cs| && forall j :: 0 <= j < |cs| && j != i ==> r[j] == cs[j]
    ensures r[i].score == cs[i].score + value
    ensures value < 0 ==> r[i] == cs[i].(hits := cs[i].hits - 1, score := r[i].score)
    ensures value >= 0 ==> r[i] == cs[i].(misses := cs[i].misses - 1, score := r[i].score)
  {
    var c := if value < 0 then cs[i].(hits := cs[i].hits - 1) else cs[i].(misses := cs[i].misses - 1);
    cs[i := c.(score := c.score + value)]
  }

  /**
   * `on_first_turn`: the contestant gains the turn and whoever held it before
   * (looked up first) loses it; when that was the same contestant, nobody
   * holds the turn afterwards.
   */
  function FirstTurnUpdate(cs: seq<GameContestant>, i: nat): (r: seq<GameContestant>)
    requires i < |cs|
    ensures SameIds(cs, r)
    ensures |r| == |cs|
    ensures forall j :: 0 <= j < |cs| ==> r[j] == cs[j].(hasTurn := r[j].hasTurn)
    ensures r[i].hasTurn <==> GetContestantWithTurn(cs) != Some(i)
    ensures AtMostOneTurn(cs) ==>
      forall j :: 0 <= j < |r| ==> (r[j].hasTurn <==> j == i && GetContestantWithTurn(cs) != Some(i))
  {
    var holder := GetContestantWithTurn(cs);
    var chosen := cs[i := cs[i].(hasTurn := true)];
    if holder.Some? then chosen[holder.value := chosen[holder.value].(hasTurn := false)] else chosen
  }

  /** `not contestant_data.finale_wager`: no wager, or a wager of 0. */
  predicate NoFinaleWager(c: GameContestant) {
    c.finaleWager.None? || c.finaleWager.value == 0
  }

  /** `on_finale_answer_correct`: ignored without a wager, otherwise `amount` points and a hit. */
  function FinaleCorrectUpdate(cs: seq<GameContestant>, i: nat, amount: int): (r: seq<GameContestant>)
    requires i < |cs|
    ensures SameIds(cs, r)
    ensures |r| == |cs| && forall j :: 0 <= j < |cs| && j != i ==> r[j] == cs[j]
    ensures NoFinaleWager(cs[i]) ==> r == cs
    ensures !NoFinaleWager(cs[i]) ==> r[i] == cs[i].(score := cs[i].score + amount, hits := cs[i].hits + 1)
  {
    if NoFinaleWager(cs[i]) then cs
    else cs[i := cs[i].(score := cs[i].score + amount, hits := cs[i].hits + 1)]
  }

  /** `on_finale_answer_wrong`: ignored without a wager, otherwise `amount` points fewer and a miss. */
  function FinaleWrongUpdate(cs: seq<GameContestant>, i: nat, amount: int): (r: seq<GameContestant>)
    requires i < |cs|
    ensures SameIds(cs, r)
    ensures |r| == |cs| && forall j :: 0 <= j < |cs| && j != i ==> r[j] == cs[j]
    ensures NoFinaleWager(cs[i]) ==> r == cs
    ensures !NoFinaleWager(cs[i]) ==> r[i] == cs[i].(score := cs[i].score - amount, misses := cs[i].misses + 1)
  {
    if NoFinaleWager(cs[i]) then cs
    else cs[i := cs[i].(score := cs[i].score - amount, misses := cs[i].misses + 1)]
  }

  /** `on_give_finale_answer`: the answer is stored only for a contestant who wagered. */
  function GiveFinaleAnswerUpdate(cs: seq<GameContestant>, i: nat, answer: string): (r: seq<GameContestant>)
    requires i < |cs|
    ensures SameIds(cs, r)
    ensures |r| == |cs| && forall j :: 0 <= j < |cs| && j != i ==> r[j] == cs[j]
    ensures NoFinaleWager(cs[i]) ==> r == cs
    ensures !NoFinaleWager(cs[i]) ==> r[i] == cs[i].(finaleAnswer := Some(answer))
  {
    if NoFinaleWager(cs[i]) then cs else cs[i := cs[i].(finaleAnswer := Some(answer))]
  }

  /** `on_buzzer_pressed`: one more buzz. */
  function BuzzCountUpdate(cs: seq<GameContestant>, i: nat): (r: seq<GameContestant>)
    requires i < |cs|
    ensures SameIds(cs, r)
    ensures |r| == |cs| && forall j :: 0 <= j < |cs| && j != i ==> r[j] == cs[j]
    ensures r[i] == cs[i].(buzzes := cs[i].buzzes + 1)
  {
    cs[i := cs[i].(buzzes := cs[i].buzzes + 1)]
  }

  /** The fields an `edit_contestant_info` message may carry; `powers` maps a power-up kind to its new `used` flag. */
  datatype ContestantInfo = ContestantInfo(
    hits: Option<int>,
    misses: Option<int>,
    score: Option<int>,
    powers: map<PowerUpType, bool>)

  function OrKeep(v: Option<int>, current: int): int {
    if v.Some? then v.value else current
  }

  /** The power-ups after an edit: a listed kind takes its new `used` flag, the rest stay. */
  function EditPowers(powerUps: seq<GamePowerUp>, powers: map<PowerUpType, bool>): (r: seq<GamePowerUp>)
    ensures |r| == |powerUps|
    ensures forall p :: 0 <= p < |r| ==>
      r[p] == powerUps[p].(used := if powerUps[p].kind in powers then powers[powerUps[p].kind] else powerUps[p].used)
  {
    seq(|powerUps|, p requires 0 <= p < |powerUps| =>
      powerUps[p].(used := if powerUps[p].kind in powers then powers[powerUps[p].kind] else powerUps[p].used))
  }

  /** `on_edit_contestant_info`: overwrite exactly the fields the message carries. */
  function EditInfoUpdate(cs: seq<GameContestant>, i: nat, info: ContestantInfo): (r: seq<GameContestant>)
    requires i < |cs|
    ensures SameIds(cs, r)
    ensures |r| == |cs| && forall j :: 0 <= j < |cs| && j != i ==> r[j] == cs[j]
    ensures r[i].hits == OrKeep(info.hits, cs[i].hits)
    ensures r[i].misses == OrKeep(info.misses, cs[i].misses)
    ensures r[i].score == OrKeep(info.score, cs[i].score)
    ensures r[i].powerUps == EditPowers(cs[i].powerUps, info.powers)
    ensures r[i] == cs[i].(hits := r[i].hits, misses := r[i].misses, score := r[i].score, powerUps := r[i].powerUps)
  {
    cs[i := cs[i].(
      hits := OrKeep(info.hits, cs[i].hits),
      misses := OrKeep(info.misses, cs[i].misses),
      score := OrKeep(info.score, cs[i].score),
      powerUps := EditPowers(cs[i].powerUps, info.powers))]
  }

  // ---------------------------------------------------------------------
  // Round trips between the score updates.
  // ---------------------------------------------------------------------

  /** Undoing a correct answer (the presenter sends minus the awarded value) restores score and hits. */
  lemma UndoAfterCorrectRestoresScore(cs: seq<GameContestant>, i: nat, value: int)
    requires i < |cs| && value > 0
    ensures var r := UndoAnswerUpdate(CorrectAnswerUpdate(cs, i, value), i, -value);
      r[i].score == cs[i].score && r[i].hits == cs[i].hits && r[i].misses == cs[i].misses
  {
  }

  /** Undoing a wrong answer (the presenter sends the deducted value) restores score and misses. */
  lemma UndoAfterWrongRestoresScore(cs: seq<GameContestant>, i: nat, value: int)
    requires i < |cs| && value >= 0
    ensures UndoAnswerUpdate(WrongAnswerUpdate(cs, i, value), i, value) == cs
  {
    var r := UndoAnswerUpdate(WrongAnswerUpdate(cs, i, value), i, value);
    assert r[i] == cs[i];
  }

  /** A rewind after a wrong answer gives back exactly what the wrong answer took. */
  lemma RewindAfterWrongRestores(cs: seq<GameContestant>, i: nat, value: int)
    requires i < |cs|
    ensures RewindUpdate(WrongAnswerUpdate(cs, i, value), i, value) == cs
  {
    var r := RewindUpdate(WrongAnswerUpdate(cs, i, value), i, value);
    assert r[i] == cs[i];
  }

  /**
   * An undone correct answer worth 0 points is booked as an undone miss: the
   * sign test cannot tell "undo a 0-point hit" from "undo a 0-point miss".
   */
  lemma UndoOfZeroValueTakesBackMiss(cs: seq<GameContestant>, i: nat)
    requires i < |cs|
    ensures var r := UndoAnswerUpdate(CorrectAnswerUpdate(cs, i, 0), i, 0);
      r[i].hits == cs[i].hits + 1 && r[i].misses == cs[i].misses - 1
  {
  }

  /** Giving the turn to the contestant who already holds it leaves nobody with the turn. */
  lemma FirstTurnToHolderClearsTurn(cs: seq<GameContestant>, i: nat)
    requires i < |cs| && AtMostOneTurn(cs) && cs[i].hasTurn
    ensures forall j :: 0 <= j < |cs| ==> !FirstTurnUpdate(cs, i)[j].hasTurn
  {
    assert GetContestantWithTurn(cs) == Some(i);
  }

  function FinaleContestant(id: string, score: int, wager: int): GameContestant {
    GameContestant(id, Contestant(id, id, "#000000"), false, score, 0, 0, 0, Some(wager), None, [])
  }

  /**
   * The finale of four contestants with scores -500, 300, 1200, 0 and wagers
   * 1000, 300, 700, 0: two correct answers, one wrong answer and an ignored
   * judgement for the contestant without a wager end at 500, 600, 500, 0.
   */
  lemma FinaleResultExample()
    ensures var start := [FinaleContestant("a", -500, 1000), FinaleContestant("b", 300, 300),
                          FinaleContestant("c", 1200, 700), FinaleContestant("d", 0, 0)];
      var judged := FinaleWrongUpdate(FinaleWrongUpdate(FinaleCorrectUpdate(FinaleCorrectUpdate(
        start, 0, 1000), 1, 300), 2, 700), 3, 0);
      judged[0].score == 500 && judged[1].score == 600 && judged[2].score == 500 && judged[3].score == 0
  {
  }

  // ---------------------------------------------------------------------
  // Wagers.
  // ---------------------------------------------------------------------

  datatype WagerOutcome = WagerAccepted(amount: int) | WagerInvalid(minWager: int, maxWager: int)

  function Max(a: int, b: int): int {
    if a >= b then a else b
  }

  /** A wager text is accepted iff it parses as an integer within [minWager, maxWager]. */
  function CheckWager(minWager: int, maxWager: int, amount: string): (w: WagerOutcome)
    ensures w.WagerAccepted? <==>
      ParsePyInt(amount).Some? && minWager <= ParsePyInt(amount).value <= maxWager
    ensures w.WagerAccepted? ==> w.amount == ParsePyInt(amount).value
    ensures w.WagerInvalid? ==> w.minWager == minWager && w.maxWager == maxWager
  {
    match ParsePyInt(amount)
    case None => WagerInvalid(minWager, maxWager)
    case Some(a) => if minWager <= a <= maxWager then WagerAccepted(a) else WagerInvalid(minWager, maxWager)
  }

  /** `on_make_daily_wager`: at least 100, at most the larger of the score and 500 per round number. */
  function DailyWagerCheck(score: int, round: int, amount: string): (w: WagerOutcome)
    ensures w.WagerAccepted? <==>
      ParsePyInt(amount).Some? && 100 <= ParsePyInt(amount).value <= Max(score, 500 * round)
    ensures w.WagerInvalid? ==> w.minWager == 100 && w.maxWager == Max(score, 500 * round)
  {
    CheckWager(100, Max(score, 500 * round), amount)
  }

  /** The finale bound: at least 0, at most the larger of the score and 1000. */
  function FinaleWagerCheck(score: int, amount: string): (w: WagerOutcome)
    ensures w.WagerAccepted? <==>
      ParsePyInt(amount).Some? && 0 <= ParsePyInt(amount).value <= Max(score, 1000)
    ensures w.WagerInvalid? ==> w.minWager == 0 && w.maxWager == Max(score, 1000)
  {
    CheckWager(0, Max(score, 1000), amount)
  }

  /** A contestant with a negative score may still wager up to 500 per round number. */
  lemma DailyWagerNegativeScore(round: int, a: nat)
    requires round >= 1 && 100 <= a <= 500 * round
    ensures DailyWagerCheck(-300, round, IntToString(a)) == WagerAccepted(a)
  {
    ParsePyIntOfIntToString(a);
  }

  // ---------------------------------------------------------------------
  // Contestant metadata and buzz arbitration.
  // ---------------------------------------------------------------------

  /**
   * A `contestant_metadata` entry: whose it is and the time of its latest
   * buzz (already corrected for the contestant's ping).
   */
  datatype ContestantMetadata = ContestantMetadata(id: string, latestBuzz: Option<int>)

  /** The keys of `contestant_metadata`, in insertion order. */
  function MetaIds(ms: seq<ContestantMetadata>): (r: seq<string>)
    ensures |r| == |ms| && forall k :: 0 <= k < |ms| ==> r[k] == ms[k].id
  {
    seq(|ms|, k requires 0 <= k < |ms| => ms[k].id)
  }

  /** No two entries share a key, as in a dictionary. */
  predicate UniqueKeys(ms: seq<ContestantMetadata>) {
    forall j, k :: 0 <= j < k < |ms| ==> ms[j].id != ms[k].id
  }

  /** `b` has the keys of `a`, in the same order. */
  predicate SameKeys(a: seq<ContestantMetadata>, b: seq<ContestantMetadata>) {
    |a| == |b| && forall k :: 0 <= k < |a| ==> a[k].id == b[k].id
  }

  /** Where `contestant_metadata[id]` is kept, if anywhere. */
  function FindMeta(ms: seq<ContestantMetadata>, id: string): (r: Option<nat>)
    ensures r.Some? ==> r.value < |ms| && ms[r.value].id == id
    ensures r.None? <==> forall k :: 0 <= k < |ms| ==> ms[k].id != id
  {
    if |ms| == 0 then None
    else if ms[0].id == id then Some(0)
    else
      match FindMeta(ms[1..], id)
      case None => None
      case Some(k) => Some(k + 1)
  }

  predicate Joined(ms: seq<ContestantMetadata>, id: string) {
    FindMeta(ms, id).Some?
  }

  function MetaIndex(ms: seq<ContestantMetadata>, id: string): (k: nat)
    requires Joined(ms, id)
    ensures k < |ms| && ms[k].id == id
  {
    FindMeta(ms, id).value
  }

  /** `cleared` is `ms` with every buzz reset to None. */
  predicate AllCleared(ms: seq<ContestantMetadata>, cleared: seq<ContestantMetadata>) {
    |cleared| == |ms| && forall k :: 0 <= k < |ms| ==> cleared[k] == ms[k].(latestBuzz := None)
  }

  predicate BuzzedBefore(b: Option<int>, t: int) {
    b.Some? && b.value < t
  }

  /**
   * The scan of `on_buzzer_pressed` over the metadata in insertion order:
   * starting from the current time, keep the strictly earliest buzz seen.
   * Returns the earliest time and whose buzz it was.
   */
  function ScanEarliest(ms: seq<ContestantMetadata>, now: int): (int, Option<string>)
    decreases |ms|
  {
    if |ms| == 0 then (now, None)
    else
      var prev := ScanEarliest(ms[..|ms| - 1], now);
      var m := ms[|ms| - 1];
      if BuzzedBefore(m.latestBuzz, prev.0) then (m.latestBuzz.value, Some(m.id)) else prev
  }

  /**
   * The scan elects nobody iff nobody buzzed before `now`; otherwise it elects
   * a contestant whose buzz is no later than anybody's, and nobody listed
   * before it buzzed at the same time: the first minimum wins.
   */
  lemma {:induction false} ScanEarliestIsFirstMinimum(ms: seq<ContestantMetadata>, now: int)
    ensures var r := ScanEarliest(ms, now);
      && r.0 <= now
      && (r.1.Some? ==> r.0 < now)
      && (r.1.None? ==> r.0 == now)
      && (forall k :: 0 <= k < |ms| ==> !BuzzedBefore(ms[k].latestBuzz, r.0))
      && (r.1.None? <==> forall k :: 0 <= k < |ms| ==> !BuzzedBefore(ms[k].latestBuzz, now))
      && (r.1.Some? ==>
            exists p :: (0 <= p < |ms| && ms[p].id == r.1.value && ms[p].latestBuzz == Some(r.0)
              && forall k :: 0 <= k < p ==> !BuzzedBefore(ms[k].latestBuzz, r.0 + 1)))
    decreases |ms|
  {
    if |ms| > 0 {
      var n := |ms| - 1;
      var init := ms[..n];
      ScanEarliestIsFirstMinimum(init, now);
      var prev := ScanEarliest(init, now);
      assert forall k :: 0 <= k < n ==> init[k] == ms[k];
      var m := ms[n];
      if BuzzedBefore(m.latestBuzz, prev.0) {
        assert forall k :: 0 <= k < n ==> !BuzzedBefore(ms[k].latestBuzz, m.latestBuzz.value + 1);
      } else if prev.1.Some? {
        var p :| 0 <= p < n && init[p].id == prev.1.value && init[p].latestBuzz == Some(prev.0)
          && forall k :: 0 <= k < p ==> !BuzzedBefore(init[k].latestBuzz, prev.0 + 1);
        assert ms[p] == init[p];
        assert BuzzedBefore(ms[p].latestBuzz, now);
      }
    }
  }

  /** When exactly one contestant buzzed before `now`, the scan elects that contestant. */
  lemma SoleBuzzWins(ms: seq<ContestantMetadata>, now: int, p: nat)
    requires p < |ms| && BuzzedBefore(ms[p].latestBuzz, now)
    requires forall k :: 0 <= k < |ms| && k != p ==> !BuzzedBefore(ms[k].latestBuzz, now)
    ensures ScanEarliest(ms, now).1 == Some(ms[p].id)
  {
    ScanEarliestIsFirstMinimum(ms, now);
    var r := ScanEarliest(ms, now);
    assert !(forall k :: 0 <= k < |ms| ==> !BuzzedBefore(ms[k].latestBuzz, now));
    var q :| 0 <= q < |ms| && ms[q].id == r.1.value && ms[q].latestBuzz == Some(r.0)
      && forall k :: 0 <= k < q ==> !BuzzedBefore(ms[k].latestBuzz, r.0 + 1);
  }

  function IsActive(active: map<string, bool>): string -> bool {
    (id: string) => id in active && active[id]
  }

  function NotListed(active: map<string, bool>): string -> bool {
    (id: string) => id !in active
  }

  datatype BuzzPress = NotJoined | AlreadyBuzzed | BuzzRecorded

  datatype BuzzDecision = AlreadyDecided | NoEarlierBuzz | Winner(id: string)

  function Elected(w: Option<string>): BuzzDecision {
    if w.Some? then Winner(w.value) else NoEarlierBuzz
  }

  // ---------------------------------------------------------------------
  // Power-ups.
  // ---------------------------------------------------------------------

  datatype EnableOutcome = EnableFailed | EnableWithheld | EnableSent(skipped: seq<string>)

  datatype PowerUseOutcome = UseIgnored | UseFailed | UseAccepted

  /** No earlier power-up of the contestant has the same kind: `get_power` finds this one. */
  predicate FirstOfKind(powerUps: seq<GamePowerUp>, p: nat)
    requires p < |powerUps|
  {
    forall q :: 0 <= q < p ==> powerUps[q].kind != powerUps[p].kind
  }

  predicate OwnsPower(c: GameContestant, kind: PowerUpType) {
    GetPower(c.powerUps, kind).Some?
  }

  /** The contestant's power-up of `kind` (the one `get_power` finds) is used. */
  predicate PowerUsed(c: GameContestant, kind: PowerUpType) {
    OwnsPower(c, kind) && c.powerUps[GetPower(c.powerUps, kind).value].used
  }

  predicate PowerEnabled(c: GameContestant, kind: PowerUpType) {
    OwnsPower(c, kind) && c.powerUps[GetPower(c.powerUps, kind).value].enabled
  }

  /** Power-ups that share their kinds are searched alike. */
  lemma SameKindsSamePower(a: seq<GamePowerUp>, b: seq<GamePowerUp>, kind: PowerUpType)
    requires |a| == |b| && forall p :: 0 <= p < |a| ==> a[p].kind == b[p].kind
    ensures GetPower(a, kind) == GetPower(b, kind)
  {
  }

  /** `b` differs from `a` at most in unused power-ups of `kind` switched on. */
  predicate PowersOnlyEnabled(a: GameContestant, b: GameContestant, kind: PowerUpType) {
    && b == a.(powerUps := b.powerUps)
    && |b.powerUps| == |a.powerUps|
    && forall p :: 0 <= p < |a.powerUps| ==>
         && b.powerUps[p] == a.powerUps[p].(enabled := b.powerUps[p].enabled)
         && (b.powerUps[p].enabled != a.powerUps[p].enabled ==>
               b.powerUps[p].enabled && !a.powerUps[p].used && a.powerUps[p].kind == kind)
  }

  /** `b` differs from `a` at most in power-ups switched off. */
  predicate PowersOnlyDisabled(a: GameContestant, b: GameContestant) {
    && b == a.(powerUps := b.powerUps)
    && |b.powerUps| == |a.powerUps|
    && forall p :: 0 <= p < |a.powerUps| ==>
         && b.powerUps[p] == a.powerUps[p].(enabled := b.powerUps[p].enabled)
         && (b.powerUps[p].enabled ==> a.powerUps[p].enabled)
  }

  /** The power-up of `kind` becomes enabled unless it is used. */
  function EnablePower(c: GameContestant, kind: PowerUpType): (r: GameContestant)
    requires OwnsPower(c, kind)
    ensures PowersOnlyEnabled(c, r, kind)
    ensures PowerEnabled(r, kind) <==> PowerEnabled(c, kind) || !PowerUsed(c, kind)
    ensures PowerUsed(c, kind) ==> r == c
  {
    var p := GetPower(c.powerUps, kind).value;
    if c.powerUps[p].used then c
    else
      var r := c.(powerUps := c.powerUps[p := c.powerUps[p].(enabled := true)]);
      SameKindsSamePower(c.powerUps, r.powerUps, kind);
      r
  }

  /** The power-up of `kind` becomes disabled. */
  function DisablePower(c: GameContestant, kind: PowerUpType): (r: GameContestant)
    requires OwnsPower(c, kind)
    ensures PowersOnlyDisabled(c, r)
    ensures !PowerEnabled(r, kind)
  {
    var p := GetPower(c.powerUps, kind).value;
    var r := c.(powerUps := c.powerUps[p := c.powerUps[p].(enabled := false)]);
    SameKindsSamePower(c.powerUps, r.powerUps, kind);
    r
  }

  /** The power-up of `kind` becomes used; nothing else changes. */
  function UsePower(c: GameContestant, kind: PowerUpType): (r: GameContestant)
    requires OwnsPower(c, kind)
    ensures |r.powerUps| == |c.powerUps| && r == c.(powerUps := r.powerUps)
    ensures forall p :: 0 <= p < |c.powerUps| ==>
      r.powerUps[p] == c.powerUps[p].(used := r.powerUps[p].used)
    ensures forall p :: 0 <= p < |c.powerUps| && r.powerUps[p].used != c.powerUps[p].used ==>
      FirstOfKind(c.powerUps, p) && c.powerUps[p].kind == kind
    ensures PowerUsed(r, kind)
  {
    var p := GetPower(c.powerUps, kind).value;
    var r := c.(powerUps := c.powerUps[p := c.powerUps[p].(used := true)]);
    SameKindsSamePower(c.powerUps, r.powerUps, kind);
    r
  }

  /** Every kind in `kinds` is available to the contestant. */
  predicate HasPowers(c: GameContestant, kinds: seq<PowerUpType>) {
    forall k :: 0 <= k < |kinds| ==> OwnsPower(c, kinds[k])
  }

  /** The power-up of each kind in `kinds` is disabled, whatever the order of `kinds`. */
  function DisablePowers(c: GameContestant, kinds: seq<PowerUpType>): (r: GameContestant)
    ensures PowersOnlyDisabled(c, r)
    ensures forall p :: 0 <= p < |c.powerUps| && r.powerUps[p] != c.powerUps[p] ==>
      c.powerUps[p].kind in kinds && FirstOfKind(c.powerUps, p)
  {
    c.(powerUps := seq(|c.powerUps|, p requires 0 <= p < |c.powerUps| =>
      if c.powerUps[p].kind in kinds && FirstOfKind(c.powerUps, p)
      then c.powerUps[p].(enabled := false) else c.powerUps[p]))
  }

  /** Every listed kind the contestant owns ends up disabled. */
  lemma DisablePowersDisables(c: GameContestant, kinds: seq<PowerUpType>, k: nat)
    requires k < |kinds| && OwnsPower(c, kinds[k])
    ensures !PowerEnabled(DisablePowers(c, kinds), kinds[k])
  {
    var r := DisablePowers(c, kinds);
    SameKindsSamePower(c.powerUps, r.powerUps, kinds[k]);
  }

  /** Disabling one more kind, as the inner loop of `on_disable_powerup` does, extends the disabled kinds by one. */
  lemma DisablePowersStep(c: GameContestant, kinds: seq<PowerUpType>, k: nat)
    requires k < |kinds| && OwnsPower(c, kinds[k])
    ensures OwnsPower(DisablePowers(c, kinds[..k]), kinds[k])
    ensures DisablePower(DisablePowers(c, kinds[..k]), kinds[k]) == DisablePowers(c, kinds[..k + 1])
  {
    var d := DisablePowers(c, kinds[..k]);
    SameKindsSamePower(c.powerUps, d.powerUps, kinds[k]);
    var lhs := DisablePower(d, kinds[k]);
    var rhs := DisablePowers(c, kinds[..k + 1]);
    forall p | 0 <= p < |c.powerUps|
      ensures lhs.powerUps[p] == rhs.powerUps[p]
    {
      DisablePowersStepAt(c, kinds, k, p);
    }
    assert lhs.powerUps == rhs.powerUps;
  }

  lemma DisablePowersStepAt(c: GameContestant, kinds: seq<PowerUpType>, k: nat, p: nat)
    requires k < |kinds| && OwnsPower(DisablePowers(c, kinds[..k]), kinds[k]) && p < |c.powerUps|
    ensures DisablePower(DisablePowers(c, kinds[..k]), kinds[k]).powerUps[p] == DisablePowers(c, kinds[..k + 1]).powerUps[p]
  {
    var kp := c.powerUps[p].kind;
    assert (kp in kinds[..k + 1]) == (kp in kinds[..k] || kp == kinds[k]) by {
      TakeOneMore(kinds, k);
    }
    SameKindsSamePower(c.powerUps, DisablePowers(c, kinds[..k]).powerUps, kinds[k]);
  }

  /** What `on_enable_powerup` saves: each target's power-up of `kind` enabled unless used. */
  function EnableTargets(cs: seq<GameContestant>, targets: seq<string>, kind: PowerUpType): (r: seq<GameContestant>)
    ensures SameIds(cs, r)
    ensures forall j :: 0 <= j < |cs| && cs[j].id !in targets ==> r[j] == cs[j]
  {
    seq(|cs|, j requires 0 <= j < |cs| =>
      if cs[j].id in targets && OwnsPower(cs[j], kind) then EnablePower(cs[j], kind) else cs[j])
  }

  /**
   * Enabling power-ups switches on only unused power-ups of `kind`, and each
   * target's power-up of `kind` ends up enabled unless it is used.
   */
  lemma EnableTargetsEffect(cs: seq<GameContestant>, targets: seq<string>, kind: PowerUpType)
    ensures var r := EnableTargets(cs, targets, kind);
      && (forall j :: 0 <= j < |cs| ==> PowersOnlyEnabled(cs[j], r[j], kind))
      && (forall j :: 0 <= j < |cs| && cs[j].id in targets && OwnsPower(cs[j], kind) ==>
            (PowerEnabled(r[j], kind) <==> PowerEnabled(cs[j], kind) || !PowerUsed(cs[j], kind)))
  {
  }

  /** One more target, as one turn of the loop of `on_enable_powerup` handles it. */
  lemma EnableTargetsStep(cs: seq<GameContestant>, targets: seq<string>, t: string, kind: PowerUpType)
    requires UniqueIds(cs) && IsGameContestant(cs, t) && t !in targets
    ensures var i := ContestantIndex(cs, t);
      EnableTargets(cs, targets + [t], kind) ==
        EnableTargets(cs, targets, kind)[i := if OwnsPower(cs[i], kind) then EnablePower(cs[i], kind) else cs[i]]
  {
    var i := ContestantIndex(cs, t);
    var lhs := EnableTargets(cs, targets + [t], kind);
    var rhs := EnableTargets(cs, targets, kind)[i := if OwnsPower(cs[i], kind) then EnablePower(cs[i], kind) else cs[i]];
    forall j | 0 <= j < |cs|
      ensures lhs[j] == rhs[j]
    {
      if j != i {
        assert cs[j].id != cs[i].id;
      }
    }
  }

  /** What `on_disable_powerup` saves: each target's power-ups of the listed kinds disabled. */
  function DisableTargets(cs: seq<GameContestant>, targets: seq<string>, kinds: seq<PowerUpType>): (r: seq<GameContestant>)
    ensures SameIds(cs, r)
    ensures forall j :: 0 <= j < |cs| && cs[j].id !in targets ==> r[j] == cs[j]
  {
    seq(|cs|, j requires 0 <= j < |cs| =>
      if cs[j].id in targets then DisablePowers(cs[j], kinds) else cs[j])
  }

  /** Disabling power-ups switches nothing on and changes nothing but `enabled` flags. */
  lemma DisableTargetsOnlyDisables(cs: seq<GameContestant>, targets: seq<string>, kinds: seq<PowerUpType>)
    ensures forall j :: 0 <= j < |cs| ==> PowersOnlyDisabled(cs[j], DisableTargets(cs, targets, kinds)[j])
  {
  }

  /** Every target ends with each listed kind it owns disabled. */
  lemma DisableTargetsDisables(cs: seq<GameContestant>, targets: seq<string>, kinds: seq<PowerUpType>, j: nat, k: nat)
    requires j < |cs| && cs[j].id in targets && k < |kinds| && OwnsPower(cs[j], kinds[k])
    ensures !PowerEnabled(DisableTargets(cs, targets, kinds)[j], kinds[k])
  {
    DisablePowersDisables(cs[j], kinds, k);
  }

  /** One more target, as one turn of the outer loop of `on_disable_powerup` handles it. */
  lemma DisableTargetsStep(cs: seq<GameContestant>, targets: seq<string>, t: string, kinds: seq<PowerUpType>)
    requires UniqueIds(cs) && IsGameContestant(cs, t) && t !in targets
    ensures var i := ContestantIndex(cs, t);
      DisableTargets(cs, targets + [t], kinds) == DisableTargets(cs, targets, kinds)[i := DisablePowers(cs[i], kinds)]
  {
    var i := ContestantIndex(cs, t);
    var lhs := DisableTargets(cs, targets + [t], kinds);
    var rhs := DisableTargets(cs, targets, kinds)[i := DisablePowers(cs[i], kinds)];
    forall j | 0 <= j < |cs|
      ensures lhs[j] == rhs[j]
    {
      if j != i {
        assert cs[j].id != cs[i].id;
      }
    }
  }

  // ---------------------------------------------------------------------
  // The loops of the handlers, on values.
  // ---------------------------------------------------------------------

  /**
   * The loop of `on_enable_buzz`: clear the buzz of each joined contestant in
   * turn and collect the ones `active` marks true. A contestant missing from
   * `active` stops the loop (the source raises) after its own buzz was cleared.
   */
  method ClearAndCollect(ms: seq<ContestantMetadata>, active: map<string, bool>)
    returns (cleared: seq<ContestantMetadata>, enabled: Option<seq<string>>)
    ensures SameKeys(ms, cleared)
    ensures enabled.Some? <==> forall k :: 0 <= k < |ms| ==> ms[k].id in active
    ensures enabled.Some? ==> enabled.value == Filter(MetaIds(ms), IsActive(active)) && AllCleared(ms, cleared)
    ensures enabled.None? ==>
      var m := FirstIndex(MetaIds(ms), NotListed(active)).value;
      AllCleared(ms[..m + 1], cleared[..m + 1]) && cleared[m + 1..] == ms[m + 1..]
  {
    cleared := ms;
    var collected: seq<string> := [];
    var i := 0;
    while i < |ms|
      invariant 0 <= i <= |ms| && |cleared| == |ms|
      invariant forall k :: 0 <= k < i ==> ms[k].id in active
      invariant collected == Filter(MetaIds(ms)[..i], IsActive(active))
      invariant forall k :: 0 <= k < |ms| ==> cleared[k] == if k < i then ms[k].(latestBuzz := None) else ms[k]
    {
      var id := ms[i].id;
      cleared := cleared[i := cleared[i].(latestBuzz := None)];
      if id !in active {
        ClearAndCollectStops(ms, active, i);
        return cleared, None;
      }
      ClearAndCollectStep(ms, active, i);
      if active[id] {
        collected := collected + [id];
      }
      i := i + 1;
    }
    TakeAll(MetaIds(ms));
    return cleared, Some(collected);
  }

  lemma ClearAndCollectStops(ms: seq<ContestantMetadata>, active: map<string, bool>, i: nat)
    requires i < |ms| && ms[i].id !in active
    requires forall k :: 0 <= k < i ==> ms[k].id in active
    ensures FirstIndex(MetaIds(ms), NotListed(active)) == Some(i)
  {
  }

  /** A listed contestant extends the collected prefix by itself when it is active. */
  lemma ClearAndCollectStep(ms: seq<ContestantMetadata>, active: map<string, bool>, i: nat)
    requires i < |ms| && ms[i].id in active
    ensures Filter(MetaIds(ms)[..i + 1], IsActive(active)) ==
      Filter(MetaIds(ms)[..i], IsActive(active)) + (if active[ms[i].id] then [ms[i].id] else [])
  {
    TakeOneMore(MetaIds(ms), i);
    FilterAppend(MetaIds(ms)[..i], [ms[i].id], IsActive(active));
    FilterSingleton(ms[i].id, IsActive(active));
  }

  /** The scan loop of `on_buzzer_pressed`; its result is the scan's elected contestant. */
  method ScanBuzzes(ms: seq<ContestantMetadata>, now: int) returns (winner: Option<string>)
    ensures winner == ScanEarliest(ms, now).1
  {
    var earliestTime := now;
    winner := None;
    var i := 0;
    while i < |ms|
      invariant 0 <= i <= |ms|
      invariant (earliestTime, winner) == ScanEarliest(ms[..i], now)
    {
      TakeOfTake(ms, i);
      if ms[i].latestBuzz.Some? && ms[i].latestBuzz.value < earliestTime {
        earliestTime := ms[i].latestBuzz.value;
        winner := Some(ms[i].id);
      }
      i := i + 1;
    }
    TakeAll(ms);
  }

  /** The reset loop of `on_buzzer_pressed`: every buzz is cleared. */
  method ResetBuzzes(ms: seq<ContestantMetadata>) returns (cleared: seq<ContestantMetadata>)
    ensures AllCleared(ms, cleared) && SameKeys(ms, cleared)
  {
    cleared := ms;
    var i := 0;
    while i < |ms|
      invariant 0 <= i <= |ms| && |cleared| == |ms|
      invariant forall k :: 0 <= k < |ms| ==> cleared[k] == if k < i then ms[k].(latestBuzz := None) else ms[k]
    {
      cleared := cleared[i := cleared[i].(latestBuzz := None)];
      i := i + 1;
    }
  }

  /** The contestant with this id owns a power-up of `kind`. */
  predicate TargetOwns(cs: seq<GameContestant>, id: string, kind: PowerUpType) {
    IsGameContestant(cs, id) && OwnsPower(cs[ContestantIndex(cs, id)], kind)
  }

  /** The contestant with this id has used its power-up of `kind`. */
  predicate TargetUsed(cs: seq<GameContestant>, id: string, kind: PowerUpType) {
    IsGameContestant(cs, id) && PowerUsed(cs[ContestantIndex(cs, id)], kind)
  }

  /** Some target owns no power-up of `kind`: `on_enable_powerup` raises on it. */
  predicate SomeTargetLacks(cs: seq<GameContestant>, targets: seq<string>, kind: PowerUpType) {
    exists k :: 0 <= k < |targets| && !TargetOwns(cs, targets[k], kind)
  }

  /** No target has used its power-up of `kind`. */
  predicate NoTargetUsed(cs: seq<GameContestant>, targets: seq<string>, kind: PowerUpType) {
    forall k :: 0 <= k < |targets| ==> !TargetUsed(cs, targets[k], kind)
  }

  /** Every target owns a power-up of each of `kinds`: `on_disable_powerup` does not raise. */
  predicate AllTargetsOwnAll(cs: seq<GameContestant>, targets: seq<string>, kinds: seq<PowerUpType>) {
    forall k :: 0 <= k < |targets| ==> TargetOwnsAll(cs, targets[k], kinds)
  }

  /** The loop of `on_enable_powerup` handles the targets one at a time. */
  lemma TargetsExtend(cs: seq<GameContestant>, done: seq<string>, t: string, kind: PowerUpType)
    ensures SomeTargetLacks(cs, done + [t], kind) <==> SomeTargetLacks(cs, done, kind) || !TargetOwns(cs, t, kind)
    ensures NoTargetUsed(cs, done + [t], kind) <==> NoTargetUsed(cs, done, kind) && !TargetUsed(cs, t, kind)
  {
    assert (done + [t])[|done|] == t;
    assert forall k :: 0 <= k < |done| ==> (done + [t])[k] == done[k];
  }

  /** The contestant with this id owns a power-up of each of `kinds`. */
  predicate TargetOwnsAll(cs: seq<GameContestant>, id: string, kinds: seq<PowerUpType>) {
    IsGameContestant(cs, id) && HasPowers(cs[ContestantIndex(cs, id)], kinds)
  }

  /**
   * The loop of `on_enable_powerup` over the target contestants: each one's
   * power-up of `kind` is enabled unless used, and the targets whose power-up
   * is used are collected. A target without such a power-up stops the loop
   * (the source raises before anything is saved).
   */
  method EnableForTargets(cs: seq<GameContestant>, targets: seq<string>, kind: PowerUpType)
    returns (updated: seq<GameContestant>, skipped: seq<string>, failed: bool)
    requires UniqueIds(cs) && Distinct(targets)
    requires forall k :: 0 <= k < |targets| ==> IsGameContestant(cs, targets[k])
    ensures failed <==> SomeTargetLacks(cs, targets, kind)
    ensures !failed ==> updated == EnableTargets(cs, targets, kind)
    ensures !failed ==> (skipped == [] <==> NoTargetUsed(cs, targets, kind))
  {
    updated := cs;
    skipped := [];
    var i := 0;
    EnableLoopInit(cs, targets, kind);
    while i < |targets|
      invariant i <= |targets| && EnableLoopInvariant(cs, targets, kind, i, updated, skipped)
    {
      var target := targets[i];
      var j := ContestantIndex(cs, target);
      var lacks, used, c := EnableOne(cs[j], kind);
      if lacks {
        TargetLacksWitness(cs, targets, kind, i);
        return updated, skipped, true;
      }
      EnableLoopStep(cs, targets, kind, i, updated, skipped);
      if used {
        skipped := skipped + [target];
      }
      updated := updated[j := c];
      i := i + 1;
    }
    EnableLoopDone(cs, targets, kind, updated, skipped);
    return updated, skipped, false;
  }

  /** What the loop of `on_enable_powerup` has achieved after the first `i` targets. */
  predicate EnableLoopInvariant(cs: seq<GameContestant>, targets: seq<string>, kind: PowerUpType, i: nat,
                                updated: seq<GameContestant>, skipped: seq<string>)
    requires i <= |targets|
  {
    && !SomeTargetLacks(cs, targets[..i], kind)
    && updated == EnableTargets(cs, targets[..i], kind)
    && (skipped == [] <==> NoTargetUsed(cs, targets[..i], kind))
  }

  lemma EnableLoopInit(cs: seq<GameContestant>, targets: seq<string>, kind: PowerUpType)
    ensures EnableLoopInvariant(cs, targets, kind, 0, cs, [])
  {
    assert targets[..0] == [];
  }

  lemma EnableLoopDone(cs: seq<GameContestant>, targets: seq<string>, kind: PowerUpType,
                       updated: seq<GameContestant>, skipped: seq<string>)
    requires EnableLoopInvariant(cs, targets, kind, |targets|, updated, skipped)
    ensures !SomeTargetLacks(cs, targets, kind)
    ensures updated == EnableTargets(cs, targets, kind)
    ensures skipped == [] <==> NoTargetUsed(cs, targets, kind)
  {
    assert targets[..|targets|] == targets;
  }

  /** One turn of the loop of `on_enable_powerup` for a target that owns the power-up. */
  lemma EnableLoopStep(cs: seq<GameContestant>, targets: seq<string>, kind: PowerUpType, i: nat,
                       updated: seq<GameContestant>, skipped: seq<string>)
    requires UniqueIds(cs) && Distinct(targets) && i < |targets|
    requires IsGameContestant(cs, targets[i])
    requires OwnsPower(cs[ContestantIndex(cs, targets[i])], kind)
    requires EnableLoopInvariant(cs, targets, kind, i, updated, skipped)
    ensures var j := ContestantIndex(cs, targets[i]);
      EnableLoopInvariant(cs, targets, kind, i + 1, updated[j := EnablePower(cs[j], kind)],
        if PowerUsed(cs[j], kind) then skipped + [targets[i]] else skipped)
  {
    TakeOneMore(targets, i);
    assert targets[i] !in targets[..i];
    TargetsExtend(cs, targets[..i], targets[i], kind);
    EnableTargetsStep(cs, targets[..i], targets[i], kind);
  }

  lemma TargetLacksWitness(cs: seq<GameContestant>, targets: seq<string>, kind: PowerUpType, i: nat)
    requires i < |targets| && IsGameContestant(cs, targets[i])
    requires !OwnsPower(cs[ContestantIndex(cs, targets[i])], kind)
    ensures SomeTargetLacks(cs, targets, kind)
  {
  }

  /**
   * One turn of the loop of `on_enable_powerup`: a missing power-up raises,
   * a used one is reported, any other one is enabled.
   */
  method EnableOne(original: GameContestant, kind: PowerUpType) returns (lacks: bool, used: bool, c: GameContestant)
    ensures lacks <==> !OwnsPower(original, kind)
    ensures !lacks ==> used == PowerUsed(original, kind) && c == EnablePower(original, kind)
  {
    var p := GetPower(original.powerUps, kind);
    if p.None? {
      return true, false, original;
    }
    if original.powerUps[p.value].used {
      return false, true, original;
    }
    return false, false, original.(powerUps := original.powerUps[p.value := original.powerUps[p.value].(enabled := true)]);
  }

  /**
   * The nested loop of `on_disable_powerup`: for each target contestant, the
   * power-up of each kind in `kinds` is disabled. A missing power-up stops
   * the loop (the source raises before anything is saved).
   */
  method DisableForTargets(cs: seq<GameContestant>, targets: seq<string>, kinds: seq<PowerUpType>)
    returns (updated: seq<GameContestant>, failed: bool)
    requires UniqueIds(cs) && Distinct(targets)
    requires forall k :: 0 <= k < |targets| ==> IsGameContestant(cs, targets[k])
    ensures failed <==> !AllTargetsOwnAll(cs, targets, kinds)
    ensures !failed ==> updated == DisableTargets(cs, targets, kinds)
  {
    updated := cs;
    failed := false;
    var i := 0;
    while i < |targets| && !failed
      invariant 0 <= i <= |targets|
      invariant forall k :: 0 <= k < i ==> TargetOwnsAll(cs, targets[k], kinds)
      invariant failed ==> i < |targets| && !TargetOwnsAll(cs, targets[i], kinds)
      invariant !failed ==> updated == DisableTargets(cs, targets[..i], kinds)
      decreases |targets| - i, if failed then 0 else 1
    {
      var target := targets[i];
      var j := ContestantIndex(cs, target);
      var c := DisableKinds(cs[j], kinds);
      if c.None? {
        failed := true;
      } else {
        TakeOneMore(targets, i);
        DisableTargetsStep(cs, targets[..i], target, kinds);
        updated := updated[j := c.value];
        i := i + 1;
      }
    }
    if !failed {
      TakeAll(targets);
    }
  }

  /** The inner loop of `on_disable_powerup` for one contestant; None where `get_power` finds nothing. */
  method DisableKinds(original: GameContestant, kinds: seq<PowerUpType>) returns (c: Option<GameContestant>)
    ensures c.None? <==> !HasPowers(original, kinds)
    ensures c.Some? ==> c.value == DisablePowers(original, kinds)
  {
    var current := original;
    var k := 0;
    while k < |kinds|
      invariant 0 <= k <= |kinds|
      invariant HasPowers(original, kinds[..k])
      invariant current == DisablePowers(original, kinds[..k])
    {
      DisableKindsStep(original, kinds, k);
      if GetPower(current.powerUps, kinds[k]).None? {
        return None;
      }
      current := DisablePower(current, kinds[k]);
      k := k + 1;
    }
    TakeAll(kinds);
    return Some(current);
  }

  /** One turn of the inner loop of `on_disable_powerup`. */
  lemma DisableKindsStep(original: GameContestant, kinds: seq<PowerUpType>, k: nat)
    requires k < |kinds| && HasPowers(original, kinds[..k])
    ensures var current := DisablePowers(original, kinds[..k]);
      && GetPower(current.powerUps, kinds[k]) == GetPower(original.powerUps, kinds[k])
      && (OwnsPower(original, kinds[k]) ==>
            HasPowers(original, kinds[..k + 1]) && DisablePower(current, kinds[k]) == DisablePowers(original, kinds[..k + 1]))
      && (!OwnsPower(original, kinds[k]) ==> !HasPowers(original, kinds))
  {
    var current := DisablePowers(original, kinds[..k]);
    SameKindsSamePower(original.powerUps, current.powerUps, kinds[k]);
    if OwnsPower(original, kinds[k]) {
      DisablePowersStep(original, kinds, k);
      HasPowersExtend(original, kinds, k);
    }
  }

  lemma HasPowersExtend(c: GameContestant, kinds: seq<PowerUpType>, k: nat)
    requires k < |kinds| && HasPowers(c, kinds[..k]) && OwnsPower(c, kinds[k])
    ensures HasPowers(c, kinds[..k + 1])
  {
    TakeOneMore(kinds, k);
  }
  /** The state the socket namespace keeps for one running game. */
  class SocketHandler {
    /**
     * The stored game. Every event reloads it and only `save_models` writes it
     * back, so an event that raises or returns before saving leaves it as it was.
     */
    const game: Game
    var buzzWinnerDecided: bool
    var powerUseDecided: bool
    /** `contestant_metadata`, in insertion order. */
    var metadata: seq<ContestantMetadata>

    ghost predicate Valid()
      reads this, game
    {
      && UniqueKeys(metadata)
      && UniqueIds(game.contestants)
      && (forall k :: 0 <= k < |metadata| ==> IsGameContestant(game.contestants, metadata[k].id))
    }

    /** The parts of the game these handlers never change. */
    function GameRest(): (seq<GameQuestion>, Stage, int, Option<int>)
      reads game
    {
      (game.questions, game.stage, game.round, game.endedAt)
    }

    constructor (game: Game)
      requires UniqueIds(game.contestants)
      ensures Valid()
      ensures this.game == game && !buzzWinnerDecided && !powerUseDecided && metadata == []
    {
      this.game := game;
      buzzWinnerDecided := false;
      powerUseDecided := false;
      metadata := [];
    }

    /** A joined contestant is a game contestant. */
    lemma JoinedIsContestant(id: string)
      requires Valid() && Joined(metadata, id)
      ensures IsGameContestant(game.contestants, id)
    {
      assert metadata[MetaIndex(metadata, id)].id == id;
    }

    /** Save contestants that keep every id, in order. */
    method ApplyTo(updated: seq<GameContestant>)
      requires Valid() && SameIds(game.contestants, updated)
      modifies game
      ensures Valid() && game.contestants == updated
      ensures GameRest() == old(GameRest())
    {
      forall k | 0 <= k < |metadata|
        ensures IsGameContestant(updated, metadata[k].id)
      {
        SameIdsSameLookup(game.contestants, updated, metadata[k].id);
      }
      game.contestants := updated;
    }

    /**
     * `on_contestant_join`: a game contestant gets fresh metadata (no buzz),
     * in place when it had joined before; anybody else is refused.
     */
    method ContestantJoin(id: string) returns (joined: bool)
      requires Valid()
      modifies this
      ensures Valid()
      ensures joined <==> IsGameContestant(game.contestants, id)
      ensures joined && Joined(old(metadata), id) ==>
        metadata == old(metadata)[MetaIndex(old(metadata), id) := ContestantMetadata(id, None)]
      ensures joined && !Joined(old(metadata), id) ==> metadata == old(metadata) + [ContestantMetadata(id, None)]
      ensures !joined ==> metadata == old(metadata)
      ensures buzzWinnerDecided == old(buzzWinnerDecided) && powerUseDecided == old(powerUseDecided)
    {
      if !IsGameContestant(game.contestants, id) {
        return false;
      }
      if Joined(metadata, id) {
        metadata := metadata[MetaIndex(metadata, id) := ContestantMetadata(id, None)];
      } else {
        metadata := metadata + [ContestantMetadata(id, None)];
      }
      return true;
    }

    /**
     * `on_enable_buzz`: clear every contestant's buzz and announce the
     * contestants marked active, in joining order. A joined contestant missing
     * from the message raises after the earlier entries were already cleared.
     */
    method EnableBuzz(active: map<string, bool>) returns (enabled: Option<seq<string>>)
      requires Valid()
      modifies this
      ensures Valid()
      ensures SameKeys(old(metadata), metadata) && powerUseDecided == old(powerUseDecided)
      ensures enabled.Some? <==> forall k :: 0 <= k < |metadata| ==> metadata[k].id in active
      ensures enabled.Some? ==>
        && enabled.value == Filter(MetaIds(old(metadata)), IsActive(active))
        && AllCleared(old(metadata), metadata)
        && !buzzWinnerDecided
      ensures enabled.None? ==>
        && buzzWinnerDecided == old(buzzWinnerDecided)
        && var m := FirstIndex(MetaIds(old(metadata)), NotListed(active)).value;
           AllCleared(old(metadata)[..m + 1], metadata[..m + 1]) && metadata[m + 1..] == old(metadata)[m + 1..]
    {
      var cleared;
      cleared, enabled := ClearAndCollect(metadata, active);
      metadata := cleared;
      if enabled.Some? {
        buzzWinnerDecided := false;
      }
    }

    /** `on_disable_buzz`: the buzz window is closed; no further winner is picked. */
    method DisableBuzz()
      requires Valid()
      modifies this
      ensures Valid() && buzzWinnerDecided
      ensures powerUseDecided == old(powerUseDecided) && metadata == old(metadata)
    {
      buzzWinnerDecided := true;
    }

    /**
     * The first half of `on_buzzer_pressed`, before its sleep: a contestant's
     * first buzz of the window is recorded at `buzzTime` (already corrected
     * for ping); a second buzz is ignored. The lookup of a contestant that
     * has not joined raises.
     */
    method RecordBuzz(id: string, buzzTime: int) returns (press: BuzzPress)
      requires Valid()
      modifies this
      ensures Valid()
      ensures press == NotJoined <==> !Joined(old(metadata), id)
      ensures press == BuzzRecorded <==>
        Joined(old(metadata), id) && old(metadata)[MetaIndex(old(metadata), id)].latestBuzz.None?
      ensures press == BuzzRecorded ==>
        metadata == old(metadata)[MetaIndex(old(metadata), id) := ContestantMetadata(id, Some(buzzTime))]
      ensures press != BuzzRecorded ==> metadata == old(metadata)
      ensures buzzWinnerDecided == old(buzzWinnerDecided) && powerUseDecided == old(powerUseDecided)
    {
      if !Joined(metadata, id) {
        return NotJoined;
      }
      var k := MetaIndex(metadata, id);
      if metadata[k].latestBuzz.Some? {
        return AlreadyBuzzed;
      }
      metadata := metadata[k := ContestantMetadata(id, Some(buzzTime))];
      return BuzzRecorded;
    }

    /**
     * The second half of `on_buzzer_pressed`, under the buzz lock, for the
     * press of contestant `id`: the first press to get here closes the
     * window, elects the earliest recorded buzz before `now` (ties to the
     * earlier joiner), clears every buzz and saves the presser's buzz count,
     * one higher. Later presses of the same window elect nobody and save
     * nothing. When no recorded buzz is earlier than `now` the lookup of the
     * winner raises before the save (NoEarlierBuzz).
     */
    method DecideBuzzWinner(id: string, now: int) returns (decision: BuzzDecision)
      requires Valid() && Joined(metadata, id)
      modifies this, game
      ensures Valid()
      ensures SameKeys(old(metadata), metadata) && powerUseDecided == old(powerUseDecided) && buzzWinnerDecided
      ensures GameRest() == old(GameRest())
      ensures old(buzzWinnerDecided) ==> decision == AlreadyDecided && metadata == old(metadata)
      ensures !old(buzzWinnerDecided) ==>
        AllCleared(old(metadata), metadata) && decision == Elected(ScanEarliest(old(metadata), now).1)
      ensures decision.Winner? ==>
        game.contestants == BuzzCountUpdate(old(game.contestants), ContestantIndex(old(game.contestants), id))
      ensures !decision.Winner? ==> game.contestants == old(game.contestants)
    {
      JoinedIsContestant(id);
      if buzzWinnerDecided {
        return AlreadyDecided;
      }
      buzzWinnerDecided := true;
      var winner := ScanBuzzes(metadata, now);
      metadata := ResetBuzzes(metadata);
      decision := Elected(winner);
      if winner.Some? {
        ApplyTo(BuzzCountUpdate(game.contestants, ContestantIndex(game.contestants, id)));
      }
    }

    /**
     * `on_enable_powerup`: enable the power-up of `kind` for one contestant or
     * for every joined contestant, leaving used ones disabled, and open the
     * power-up window. A single contestant whose power-up is used gets
     * nothing saved (EnableWithheld). An unknown contestant or a missing
     * power-up raises (EnableFailed): nothing is saved and the window stays
     * as it was.
     */
    method EnablePowerUp(id: Option<string>, kind: PowerUpType) returns (outcome: EnableOutcome)
      requires Valid()
      modifies this, game
      ensures Valid()
      ensures metadata == old(metadata) && buzzWinnerDecided == old(buzzWinnerDecided)
      ensures GameRest() == old(GameRest())
      ensures outcome.EnableFailed? <==>
        || (id.Some? && !Joined(metadata, id.value))
        || SomeTargetLacks(old(game.contestants), EnableTargetIds(id), kind)
      ensures outcome.EnableFailed? ==> powerUseDecided == old(powerUseDecided)
      ensures !outcome.EnableFailed? ==> !powerUseDecided
      ensures outcome.EnableWithheld? <==>
        !outcome.EnableFailed? && id.Some? && TargetUsed(old(game.contestants), id.value, kind)
      ensures outcome.EnableSent? ==>
        game.contestants == EnableTargets(old(game.contestants), EnableTargetIds(id), kind)
      ensures outcome.EnableSent? ==> (outcome.skipped == [] <==> NoTargetUsed(old(game.contestants), EnableTargetIds(id), kind))
      ensures !outcome.EnableSent? ==> game.contestants == old(game.contestants)
    {
      if id.Some? && !Joined(metadata, id.value) {
        return EnableFailed;
      }
      var targets := EnableTargetIds(id);
      var updated, skipped, failed := EnableForTargets(game.contestants, targets, kind);
      if failed {
        return EnableFailed;
      }
      powerUseDecided := false;
      if skipped != [] && id.Some? {
        return EnableWithheld;
      }
      ApplyTo(updated);
      return EnableSent(skipped);
    }

    /** The contestants a power-up message is about: one, or every joined contestant. */
    function EnableTargetIds(id: Option<string>): (targets: seq<string>)
      reads this
      ensures id.Some? ==> targets == [id.value]
      ensures id.None? ==> targets == MetaIds(metadata)
    {
      if id.Some? then [id.value] else MetaIds(metadata)
    }

    /**
     * `on_disable_powerup`: disable the power-up of `kind` (of every kind when
     * None) for one contestant or every joined contestant, and close the
     * power-up window. An unknown contestant or a missing power-up raises
     * before anything is saved. A contestant that is not joined is still
     * handled; only the reply to it raises, after the save.
     */
    method DisablePowerUp(id: Option<string>, kind: Option<PowerUpType>) returns (ok: bool)
      requires Valid()
      modifies this, game
      ensures Valid()
      ensures metadata == old(metadata) && buzzWinnerDecided == old(buzzWinnerDecided)
      ensures GameRest() == old(GameRest())
      ensures ok <==>
        && (id.Some? ==> IsGameContestant(old(game.contestants), id.value))
        && AllTargetsOwnAll(old(game.contestants), EnableTargetIds(id), DisableKindsOf(kind))
      ensures !ok ==> powerUseDecided == old(powerUseDecided) && game.contestants == old(game.contestants)
      ensures ok ==> powerUseDecided
      ensures ok ==> game.contestants == DisableTargets(old(game.contestants), EnableTargetIds(id), DisableKindsOf(kind))
    {
      if id.Some? && !IsGameContestant(game.contestants, id.value) {
        return false;
      }
      var targets := EnableTargetIds(id);
      var kinds := DisableKindsOf(kind);
      var updated, failed := DisableForTargets(game.contestants, targets, kinds);
      if failed {
        return false;
      }
      powerUseDecided := true;
      ApplyTo(updated);
      return true;
    }

    /**
     * `on_use_power_up`, under the power-up lock: the first request of a window
     * closes it; it is accepted iff the contestant's power-up of that kind is
     * unused, which then becomes used. Later requests of the same window are
     * ignored. A contestant that has not joined, or one without such a
     * power-up, makes the handler raise.
     */
    method UsePowerUp(id: string, kind: PowerUpType) returns (outcome: PowerUseOutcome)
      requires Valid()
      modifies this, game
      ensures Valid()
      ensures metadata == old(metadata) && buzzWinnerDecided == old(buzzWinnerDecided)
      ensures GameRest() == old(GameRest())
      ensures Joined(metadata, id) ==> powerUseDecided
      ensures !Joined(metadata, id) ==> powerUseDecided == old(powerUseDecided)
      ensures outcome == UseAccepted <==>
        Joined(metadata, id) && !old(powerUseDecided) && TargetOwns(old(game.contestants), id, kind)
        && !TargetUsed(old(game.contestants), id, kind)
      ensures outcome == UseFailed <==>
        !Joined(metadata, id) || (!old(powerUseDecided) && !TargetOwns(old(game.contestants), id, kind))
      ensures outcome == UseAccepted ==>
        var i := ContestantIndex(old(game.contestants), id);
        game.contestants == old(game.contestants)[i := UsePower(old(game.contestants)[i], kind)]
      ensures outcome != UseAccepted ==> game.contestants == old(game.contestants)
    {
      if !Joined(metadata, id) {
        return UseFailed;
      }
      if powerUseDecided {
        return UseIgnored;
      }
      powerUseDecided := true;
      var i := ContestantIndex(game.contestants, id);
      var c := game.contestants[i];
      var p := GetPower(c.powerUps, kind);
      if p.None? {
        return UseFailed;
      }
      if c.powerUps[p.value].used {
        return UseIgnored;
      }
      ApplyTo(game.contestants[i := UsePower(c, kind)]);
      return UseAccepted;
    }

    /** `on_correct_answer` (a contestant that has not joined makes the metadata lookup raise). */
    method CorrectAnswer(id: string, value: int) returns (ok: bool)
      requires Valid()
      modifies game
      ensures Valid()
      ensures ok <==> Joined(metadata, id)
      ensures ok ==> game.contestants == CorrectAnswerUpdate(old(game.contestants), ContestantIndex(old(game.contestants), id), value)
      ensures !ok ==> game.contestants == old(game.contestants)
      ensures GameRest() == old(GameRest())
    {
      if !Joined(metadata, id) {
        return false;
      }
      ApplyTo(CorrectAnswerUpdate(game.contestants, ContestantIndex(game.contestants, id), value));
      return true;
    }

    /** `on_wrong_answer`. */
    method WrongAnswer(id: string, value: int) returns (ok: bool)
      requires Valid()
      modifies game
      ensures Valid()
      ensures ok <==> Joined(metadata, id)
      ensures ok ==> game.contestants == WrongAnswerUpdate(old(game.contestants), ContestantIndex(old(game.contestants), id), value)
      ensures !ok ==> game.contestants == old(game.contestants)
      ensures GameRest() == old(GameRest())
    {
      if !Joined(metadata, id) {
        return false;
      }
      ApplyTo(WrongAnswerUpdate(game.contestants, ContestantIndex(game.contestants, id), value));
      return true;
    }

    /** `on_undo_answer`. */
    method UndoAnswer(id: string, value: int) returns (ok: bool)
      requires Valid()
      modifies game
      ensures Valid()
      ensures ok <==> Joined(metadata, id)
      ensures ok ==> game.contestants == UndoAnswerUpdate(old(game.contestants), ContestantIndex(old(game.contestants), id), value)
      ensures !ok ==> game.contestants == old(game.contestants)
      ensures GameRest() == old(GameRest())
    {
      if !Joined(metadata, id) {
        return false;
      }
      ApplyTo(UndoAnswerUpdate(game.contestants, ContestantIndex(game.contestants, id), value));
      return true;
    }

    /** `on_edit_contestant_info`. */
    method EditContestantInfo(id: string, info: ContestantInfo) returns (ok: bool)
      requires Valid()
      modifies game
      ensures Valid()
      ensures ok <==> Joined(metadata, id)
      ensures ok ==> game.contestants == EditInfoUpdate(old(game.contestants), ContestantIndex(old(game.contestants), id), info)
      ensures !ok ==> game.contestants == old(game.contestants)
      ensures GameRest() == old(GameRest())
    {
      if !Joined(metadata, id) {
        return false;
      }
      ApplyTo(EditInfoUpdate(game.contestants, ContestantIndex(game.contestants, id), info));
      return true;
    }

    /** `on_rewind_used` (looks up the game contestant only, not the metadata). */
    method RewindUsed(id: string, value: int) returns (ok: bool)
      requires Valid()
      modifies game
      ensures Valid()
      ensures ok <==> IsGameContestant(old(game.contestants), id)
      ensures ok ==> game.contestants == RewindUpdate(old(game.contestants), ContestantIndex(old(game.contestants), id), value)
      ensures !ok ==> game.contestants == old(game.contestants)
      ensures GameRest() == old(GameRest())
    {
      if !IsGameContestant(game.contestants, id) {
        return false;
      }
      ApplyTo(RewindUpdate(game.contestants, ContestantIndex(game.contestants, id), value));
      return true;
    }

    /** `on_first_turn`. */
    method FirstTurn(id: string) returns (ok: bool)
      requires Valid()
      modifies game
      ensures Valid()
      ensures ok <==> IsGameContestant(old(game.contestants), id)
      ensures ok ==> game.contestants == FirstTurnUpdate(old(game.contestants), ContestantIndex(old(game.contestants), id))
      ensures !ok ==> game.contestants == old(game.contestants)
      ensures GameRest() == old(GameRest())
    {
      if !IsGameContestant(game.contestants, id) {
        return false;
      }
      ApplyTo(FirstTurnUpdate(game.contestants, ContestantIndex(game.contestants, id)));
      return true;
    }

    /** `on_make_daily_wager`: decides the wager from the contestant's score and the round; stores nothing. */
    method MakeDailyWager(id: string, amount: string) returns (outcome: Option<WagerOutcome>)
      requires Valid()
      ensures outcome.Some? <==> IsGameContestant(game.contestants, id)
      ensures outcome.Some? ==>
        outcome.value == DailyWagerCheck(game.contestants[ContestantIndex(game.contestants, id)].score, game.round, amount)
    {
      if !IsGameContestant(game.contestants, id) {
        return None;
      }
      var c := game.contestants[ContestantIndex(game.contestants, id)];
      return Some(DailyWagerCheck(c.score, game.round, amount));
    }

    /** `on_make_finale_wager`: an accepted wager is stored as the contestant's finale wager. */
    method MakeFinaleWager(id: string, amount: string) returns (outcome: Option<WagerOutcome>)
      requires Valid()
      modifies game
      ensures Valid()
      ensures outcome.Some? <==> IsGameContestant(old(game.contestants), id)
      ensures outcome.Some? ==>
        var i := ContestantIndex(old(game.contestants), id);
        && outcome.value == FinaleWagerCheck(old(game.contestants)[i].score, amount)
        && game.contestants == if outcome.value.WagerAccepted?
                               then old(game.contestants)[i := old(game.contestants)[i].(finaleWager := Some(outcome.value.amount))]
                               else old(game.contestants)
      ensures outcome.None? ==> game.contestants == old(game.contestants)
      ensures GameRest() == old(GameRest())
    {
      if !IsGameContestant(game.contestants, id) {
        return None;
      }
      var i := ContestantIndex(game.contestants, id);
      var w := FinaleWagerCheck(game.contestants[i].score, amount);
      if w.WagerAccepted? {
        ApplyTo(game.contestants[i := game.contestants[i].(finaleWager := Some(w.amount))]);
      }
      return Some(w);
    }

    /** `on_give_finale_answer`. */
    method GiveFinaleAnswer(id: string, answer: string) returns (ok: bool)
      requires Valid()
      modifies game
      ensures Valid()
      ensures ok <==> IsGameContestant(old(game.contestants), id)
      ensures ok ==> game.contestants == GiveFinaleAnswerUpdate(old(game.contestants), ContestantIndex(old(game.contestants), id), answer)
      ensures !ok ==> game.contestants == old(game.contestants)
      ensures GameRest() == old(GameRest())
    {
      if !IsGameContestant(game.contestants, id) {
        return false;
      }
      ApplyTo(GiveFinaleAnswerUpdate(game.contestants, ContestantIndex(game.contestants, id), answer));
      return true;
    }

    /** `on_finale_answer_correct`. */
    method FinaleAnswerCorrect(id: string, amount: int) returns (ok: bool)
      requires Valid()
      modifies game
      ensures Valid()
      ensures ok <==> IsGameContestant(old(game.contestants), id)
      ensures ok ==> game.contestants == FinaleCorrectUpdate(old(game.contestants), ContestantIndex(old(game.contestants), id), amount)
      ensures !ok ==> game.contestants == old(game.contestants)
      ensures GameRest() == old(GameRest())
    {
      if !IsGameContestant(game.contestants, id) {
        return false;
      }
      ApplyTo(FinaleCorrectUpdate(game.contestants, ContestantIndex(game.contestants, id), amount));
      return true;
    }

    /** `on_finale_answer_wrong`. */
    method FinaleAnswerWrong(id: string, amount: int) returns (ok: bool)
      requires Valid()
      modifies game
      ensures Valid()
      ensures ok <==> IsGameContestant(old(game.contestants), id)
      ensures ok ==> game.contestants == FinaleWrongUpdate(old(game.contestants), ContestantIndex(old(game.contestants), id), amount)
      ensures !ok ==> game.contestants == old(game.contestants)
      ensures GameRest() == old(GameRest())
    {
      if !IsGameContestant(game.contestants, id) {
        return false;
      }
      ApplyTo(FinaleWrongUpdate(game.contestants, ContestantIndex(game.contestants, id), amount));
      return true;
    }
  }

  /** The kinds `on_disable_powerup` handles: the one named, or every kind. */
  function DisableKindsOf(kind: Option<PowerUpType>): (kinds: seq<PowerUpType>)
    ensures kind.Some? ==> kinds == [kind.value]
    ensures kind.None? ==> kinds == AllPowerUpTypes
  {
    if kind.Some? then [kind.value] else AllPowerUpTypes
  }
}
