/**
 * The persistence rules of `src/jeoparty/api/database.py` that shape what is
 * stored: how `update_question_pack` turns the editor's nested round /
 * category / question data into rows (round numbers, category order, parent
 * ids, the `extra == {}` normalisation), which rows it queues for deletion
 * and which newly created ids it reports back; the column diff of
 * `_get_update_statement`; and `get_unique_join_code`.
 *
 * SQL execution is not modelled: a stored entity with an `Existing` id is
 * written through `_get_update_statement`, and one with a fresh id is
 * inserted. A fresh id is named by the position of its entity in the input
 * (the database generates it when the session is flushed).
 */
module PackStore {
  import opened Wrappers
  import opened Text
  import opened SeqUtil

  /** A JSON value as the editor posts it. */
  datatype Json =
    | JText(s: string)
    | JInt(i: int)
    | JBool(b: bool)
    | JNull
    | JList(items: seq<Json>)
    | JObject(fields: map<string, Json>)

  /** The column values of one row or one posted entity. */
  type Row = map<string, Json>

  // ---------------------------------------------------------------------
  // _get_update_statement
  // ---------------------------------------------------------------------

  /** `update(cls).where(cls.<id_key> == key).values(**values)`. */
  datatype UpdateStatement = UpdateStatement(key: Json, values: Row)

  /**
   * `_get_update_statement(old_model, new_model, id_key)`: None when no column
   * other than the key differs, otherwise an update of the old row that sets
   * exactly the differing columns to their new values.
   */
  method GetUpdateStatement(columns: seq<string>, oldRow: Row, newRow: Row, idKey: string)
    returns (r: Option<UpdateStatement>)
    requires idKey in oldRow
    requires forall c :: c in columns ==> c in oldRow && c in newRow
    ensures r.None? <==> forall c :: c in columns && c != idKey ==> oldRow[c] == newRow[c]
    ensures r.Some? ==> r.value.key == oldRow[idKey]
    ensures r.Some? ==> forall c :: c in r.value.values <==> c in columns && c != idKey && oldRow[c] != newRow[c]
    ensures r.Some? ==> forall c :: c in r.value.values ==> r.value.values[c] == newRow[c]
  {
    var changed: Row := map[];
    var i := 0;
    while i < |columns|
      invariant i <= |columns|
      invariant forall c :: c in changed <==> c in columns[..i] && c != idKey && oldRow[c] != newRow[c]
      invariant forall c :: c in changed ==> changed[c] == newRow[c]
    {
      var key := columns[i];
      assert columns[..i + 1] == columns[..i] + [key];
      if key != idKey && oldRow[key] != newRow[key] {
        changed := changed[key := newRow[key]];
      }
      i := i + 1;
    }
    assert columns[..i] == columns;
    if changed == map[] {
      assert forall c :: c in columns && c != idKey ==> oldRow[c] == newRow[c] by {
        forall c | c in columns && c != idKey
          ensures oldRow[c] == newRow[c]
        {
          assert c !in changed;
        }
      }
      return None;
    }
    return Some(UpdateStatement(oldRow[idKey], changed));
  }

  /** Applying the update's values to the old row makes it agree with the new row on every column but the key. */
  lemma UpdateReachesNewRow(columns: seq<string>, oldRow: Row, newRow: Row, idKey: string, values: Row)
    requires forall c :: c in columns ==> c in oldRow && c in newRow
    requires forall c :: c in values <==> c in columns && c != idKey && oldRow[c] != newRow[c]
    requires forall c :: c in values ==> values[c] == newRow[c]
    ensures forall c :: c in columns && c != idKey ==> (oldRow + values)[c] == newRow[c]
    ensures forall c :: c in oldRow && c !in values ==> (oldRow + values)[c] == oldRow[c]
  {
  }

  // ---------------------------------------------------------------------
  // get_unique_join_code
  // ---------------------------------------------------------------------

  /** A game as far as join codes are concerned. */
  datatype GameRow = GameRow(joinCode: string, ended: bool)

  /** `select count() from game where join_code == code and ended_at is None`. */
  function UnendedWithCode(games: seq<GameRow>, code: string): (n: nat)
    ensures n <= |games|
    ensures n == 0 <==> forall i :: 0 <= i < |games| ==> games[i].joinCode != code || games[i].ended
    decreases |games|
  {
    if |games| == 0 then 0
    else UnendedWithCode(games[1..], code) + (if games[0].joinCode == code && !games[0].ended then 1 else 0)
  }

  /**
   * `get_unique_join_code(code)`: the code itself when no running game uses
   * it, otherwise the code followed by `_` and the number of running games
   * that use it.
   */
  function UniqueJoinCode(games: seq<GameRow>, code: string): (r: string)
    ensures (forall i :: 0 <= i < |games| ==> games[i].joinCode != code || games[i].ended) ==> r == code
    ensures UnendedWithCode(games, code) > 0 ==> |r| > |code| + 1 && r[..|code| + 1] == code + "_"
    // the suffix is the count of running games with the code, in plain decimal
    ensures UnendedWithCode(games, code) > 0 ==>
      var suffix := r[|code| + 1..];
      AllDigits(suffix) && (|suffix| > 1 ==> suffix[0] != '0') && DigitsValue(suffix) == UnendedWithCode(games, code)
  {
    var count := UnendedWithCode(games, code);
    if count == 0 then code
    else
      DigitsValueOfNatToString(count);
      assert (code + "_" + NatToString(count))[|code| + 1..] == NatToString(count);
      code + "_" + NatToString(count)
  }

  /**
   * The suffixed code is not checked again: a third game asking for a code
   * already given out as-is and once with `_1` is handed `_1` a second time.
   */
  lemma JoinCodeRepeats(code: string)
    ensures var games := [GameRow(code, false), GameRow(code + "_1", false)];
      UniqueJoinCode(games, code) == code + "_1" && games[1].joinCode == UniqueJoinCode(games, code)
  {
    var games := [GameRow(code, false), GameRow(code + "_1", false)];
    assert games[1..][1..] == [];
    assert (code + "_1") != code by {
      assert |code + "_1"| != |code|;
    }
    assert UnendedWithCode(games, code) == 1;
    assert NatToString(1) == "1";
  }

  // ---------------------------------------------------------------------
  // update_question_pack
  // ---------------------------------------------------------------------

  /** A posted question: its id when it was stored before, the editor's deletion mark, `extra` and the other columns. */
  datatype QuestionEntry = QuestionEntry(id: Option<string>, deleted: bool, extra: Json, columns: Row)

  datatype CategoryEntry = CategoryEntry(id: Option<string>, deleted: bool, columns: Row, questions: seq<QuestionEntry>)

  datatype RoundEntry = RoundEntry(id: Option<string>, deleted: bool, columns: Row, categories: seq<CategoryEntry>)

  /** The id a stored entity ends up with: the posted one, or a fresh one named by position. */
  datatype RowId =
    | Existing(id: string)
    | NewRound(round: nat)
    | NewCategory(round: nat, category: nat)
    | NewQuestion(round: nat, category: nat, question: nat)

  datatype StoredQuestion = StoredQuestion(id: RowId, categoryId: RowId, extra: Json, columns: Row)

  datatype StoredCategory = StoredCategory(id: RowId, roundId: RowId, order: nat, columns: Row, questions: seq<StoredQuestion>)

  datatype StoredRound = StoredRound(id: RowId, packId: string, number: nat, columns: Row, categories: seq<StoredCategory>)

  datatype Table = RoundTable | CategoryTable | QuestionTable

  /** An entry of `data_to_delete`. */
  datatype Deletion = Deletion(table: Table, id: string)

  /** An entry of `new_ids`: the indices of a created entity, its id and its parents' ids. */
  datatype NewId =
    | RoundCreated(round: nat, id: RowId)
    | CategoryCreated(round: nat, category: nat, id: RowId, roundId: RowId)
    | QuestionCreated(round: nat, category: nat, question: nat, id: RowId, roundId: RowId, categoryId: RowId)

  /** What a stretch of the input contributes: stored entities, deletions and created ids, each in order. */
  datatype Batch<T> = Batch(items: seq<T>, deletes: seq<Deletion>, newIds: seq<NewId>)

  function Append<T>(a: Batch<T>, b: Batch<T>): Batch<T> {
    Batch(a.items + b.items, a.deletes + b.deletes, a.newIds + b.newIds)
  }

  /**
   * The batches of the elements of `s`, in order. `step` is given an
   * element's index, the number of items stored before it, and the element.
   */
  function Fold<T, U>(s: seq<T>, step: (nat, nat, T) -> Batch<U>): Batch<U>
    decreases |s|
  {
    if |s| == 0 then Batch([], [], [])
    else
      var n := |s| - 1;
      var before := Fold(s[..n], step);
      Append(before, step(n, |before.items|, s[n]))
  }

  /**
   * When each element yields one item if it survives and none otherwise, the
   * items are the survivors' in order, each made knowing its survivor number.
   */
  lemma {:induction false} FoldSurvivors<T(!new), U>(s: seq<T>, step: (nat, nat, T) -> Batch<U>,
                                                     live: T -> bool, good: (nat, T, U) -> bool)
    requires forall idx: nat, count: nat, x: T :: |step(idx, count, x).items| == (if live(x) then 1 else 0)
    requires forall idx: nat, count: nat, x: T :: live(x) ==> good(count, x, step(idx, count, x).items[0])
    ensures |Fold(s, step).items| == |Filter(s, live)|
    ensures forall i :: 0 <= i < |Filter(s, live)| ==> good(i, Filter(s, live)[i], Fold(s, step).items[i])
    decreases |s|
  {
    if |s| > 0 {
      var n := |s| - 1;
      FoldSurvivors(s[..n], step, live, good);
      FilterSnoc(s, live);
      var before := Fold(s[..n], step);
      var last := step(n, |before.items|, s[n]);
      var items := Fold(s, step).items;
      assert items == before.items + last.items;
      if live(s[n]) {
        forall i | 0 <= i < |Filter(s, live)|
          ensures good(i, Filter(s, live)[i], items[i])
        {
          if i < |before.items| {
            assert Filter(s, live)[i] == Filter(s[..n], live)[i];
            assert items[i] == before.items[i];
          } else {
            assert items[i] == last.items[0];
          }
        }
      } else {
        assert items == before.items;
      }
    }
  }

  /** When each element yields exactly one item, the items follow the elements one to one. */
  lemma {:induction false} FoldEach<T, U>(s: seq<T>, step: (nat, nat, T) -> Batch<U>, good: (nat, T, U) -> bool)
    requires forall idx: nat, count: nat, x: T ::
      |step(idx, count, x).items| == 1 && good(idx, x, step(idx, count, x).items[0])
    ensures |Fold(s, step).items| == |s|
    ensures forall i :: 0 <= i < |s| ==> good(i, s[i], Fold(s, step).items[i])
    decreases |s|
  {
    if |s| > 0 {
      var n := |s| - 1;
      FoldEach(s[..n], step, good);
      var before := Fold(s[..n], step);
      var items := Fold(s, step).items;
      assert items == before.items + step(n, |before.items|, s[n]).items;
      forall i | 0 <= i < |s|
        ensures good(i, s[i], items[i])
      {
        if i < n {
          assert s[..n][i] == s[i];
          assert items[i] == before.items[i];
        }
      }
    }
  }

  /** A property of every item of every step holds for every item of the fold. */
  lemma {:induction false} FoldAll<T, U>(s: seq<T>, step: (nat, nat, T) -> Batch<U>, ok: U -> bool)
    requires forall idx: nat, count: nat, x: T, j :: 0 <= j < |step(idx, count, x).items| ==> ok(step(idx, count, x).items[j])
    ensures forall i :: 0 <= i < |Fold(s, step).items| ==> ok(Fold(s, step).items[i])
    decreases |s|
  {
    if |s| > 0 {
      var n := |s| - 1;
      FoldAll(s[..n], step, ok);
      var before := Fold(s[..n], step);
      var last := step(n, |before.items|, s[n]);
      var items := Fold(s, step).items;
      assert items == before.items + last.items;
      forall i | 0 <= i < |items|
        ensures ok(items[i])
      {
        if i < |before.items| {
          assert items[i] == before.items[i];
        } else {
          assert items[i] == last.items[i - |before.items|];
        }
      }
    }
  }

  /** When a step's deletions do not depend on the count, the fold queues exactly the steps' deletions. */
  lemma {:induction false} FoldDeletes<T, U>(s: seq<T>, step: (nat, nat, T) -> Batch<U>)
    requires forall idx: nat, c1: nat, c2: nat, x: T :: step(idx, c1, x).deletes == step(idx, c2, x).deletes
    ensures forall d :: d in Fold(s, step).deletes <==> exists i :: 0 <= i < |s| && d in step(i, 0, s[i]).deletes
    decreases |s|
  {
    if |s| > 0 {
      var n := |s| - 1;
      FoldDeletes(s[..n], step);
      var before := Fold(s[..n], step);
      assert Fold(s, step).deletes == before.deletes + step(n, |before.items|, s[n]).deletes;
      assert step(n, |before.items|, s[n]).deletes == step(n, 0, s[n]).deletes;
      forall d | d in Fold(s, step).deletes
        ensures exists i :: 0 <= i < |s| && d in step(i, 0, s[i]).deletes
      {
        if d in before.deletes {
          var i :| 0 <= i < n && d in step(i, 0, s[..n][i]).deletes;
          assert s[..n][i] == s[i];
        }
      }
      forall d | exists i :: 0 <= i < |s| && d in step(i, 0, s[i]).deletes
        ensures d in Fold(s, step).deletes
      {
        var i :| 0 <= i < |s| && d in step(i, 0, s[i]).deletes;
        if i < n {
          assert s[..n][i] == s[i];
        }
      }
    }
  }

  /** When a step's created ids do not depend on the count, the fold reports exactly the steps' created ids. */
  lemma {:induction false} FoldNewIds<T, U>(s: seq<T>, step: (nat, nat, T) -> Batch<U>)
    requires forall idx: nat, c1: nat, c2: nat, x: T :: step(idx, c1, x).newIds == step(idx, c2, x).newIds
    ensures forall e :: e in Fold(s, step).newIds <==> exists i :: 0 <= i < |s| && e in step(i, 0, s[i]).newIds
    decreases |s|
  {
    if |s| > 0 {
      var n := |s| - 1;
      FoldNewIds(s[..n], step);
      var before := Fold(s[..n], step);
      assert Fold(s, step).newIds == before.newIds + step(n, |before.items|, s[n]).newIds;
      assert step(n, |before.items|, s[n]).newIds == step(n, 0, s[n]).newIds;
      forall e | e in Fold(s, step).newIds
        ensures exists i :: 0 <= i < |s| && e in step(i, 0, s[i]).newIds
      {
        if e in before.newIds {
          var i :| 0 <= i < n && e in step(i, 0, s[..n][i]).newIds;
          assert s[..n][i] == s[i];
        }
      }
      forall e | exists i :: 0 <= i < |s| && e in step(i, 0, s[i]).newIds
        ensures e in Fold(s, step).newIds
      {
        var i :| 0 <= i < |s| && e in step(i, 0, s[i]).newIds;
        if i < n {
          assert s[..n][i] == s[i];
        }
      }
    }
  }

  predicate RoundLive(r: RoundEntry) { !r.deleted }
  predicate CategoryLive(c: CategoryEntry) { !c.deleted }
  predicate QuestionLive(q: QuestionEntry) { !q.deleted }
  function RoundIdOf(r: RoundEntry): Option<string> { r.id }
  function CategoryIdOf(c: CategoryEntry): Option<string> { c.id }
  function QuestionIdOf(q: QuestionEntry): Option<string> { q.id }

  /** The deletions queued for the entries of `s` that are marked deleted and carry an id. */
  function Queued<T>(s: seq<T>, live: T -> bool, idOf: T -> Option<string>, table: Table): seq<Deletion>
    decreases |s|
  {
    if |s| == 0 then []
    else
      var x := s[|s| - 1];
      Queued(s[..|s| - 1], live, idOf, table) + (if !live(x) && idOf(x).Some? then [Deletion(table, idOf(x).value)] else [])
  }

  /** A deletion is queued exactly for a deleted entry that carries that id. */
  lemma {:induction false} QueuedMembers<T>(s: seq<T>, live: T -> bool, idOf: T -> Option<string>, table: Table)
    ensures forall d :: d in Queued(s, live, idOf, table) <==>
      d.table == table && exists x :: x in s && !live(x) && idOf(x) == Some(d.id)
    decreases |s|
  {
    if |s| > 0 {
      var front := s[..|s| - 1];
      var x := s[|s| - 1];
      QueuedMembers(front, live, idOf, table);
      assert s == front + [x];
      forall d ensures d in Queued(s, live, idOf, table) <==>
        d.table == table && exists y :: y in s && !live(y) && idOf(y) == Some(d.id)
      {
        if d.table == table && exists y :: y in s && !live(y) && idOf(y) == Some(d.id) {
          var y :| y in s && !live(y) && idOf(y) == Some(d.id);
          if y != x {
            assert y in front;
          }
        }
      }
    }
  }

  /**
   * The filtering loops of `update_question_pack`: the entries not marked
   * deleted are kept in order, and a deleted one is queued for deletion when
   * it carries an id.
   */
  method Partition<T(!new)>(s: seq<T>, live: T -> bool, idOf: T -> Option<string>, table: Table)
    returns (kept: seq<T>, queued: seq<Deletion>)
    ensures kept == Filter(s, live)
    ensures queued == Queued(s, live, idOf, table)
  {
    kept := [];
    queued := [];
    var i := 0;
    while i < |s|
      invariant i <= |s|
      invariant kept == Filter(s[..i], live)
      invariant queued == Queued(s[..i], live, idOf, table)
    {
      var x := s[i];
      FilterSnoc(s[..i + 1], live);
      assert s[..i + 1][..i] == s[..i];
      if live(x) {
        kept := kept + [x];
      } else if idOf(x).Some? {
        queued := queued + [Deletion(table, idOf(x).value)];
      }
      i := i + 1;
    }
    assert s[..i] == s;
  }

  /** `extra == {}` is stored as None (JSON null); any other value is kept. */
  function NormalExtra(extra: Json): (e: Json)
    ensures e != JObject(map[])
    ensures extra != JObject(map[]) ==> e == extra
  {
    if extra == JObject(map[]) then JNull else extra
  }

  function QuestionRowId(r: nat, c: nat, qi: nat, q: QuestionEntry): RowId {
    if q.id.Some? then Existing(q.id.value) else NewQuestion(r, c, qi)
  }

  function CategoryRowId(r: nat, ci: nat, cat: CategoryEntry): RowId {
    if cat.id.Some? then Existing(cat.id.value) else NewCategory(r, ci)
  }

  function RoundRowId(ri: nat, round: RoundEntry): RowId {
    if round.id.Some? then Existing(round.id.value) else NewRound(ri)
  }

  /** What surviving question `q`, at position `qi` of its category, contributes. */
  function QuestionBatch(r: nat, c: nat, qi: nat, roundId: RowId, categoryId: RowId, q: QuestionEntry): Batch<StoredQuestion> {
    var id := QuestionRowId(r, c, qi, q);
    Batch([StoredQuestion(id, categoryId, NormalExtra(q.extra), q.columns)], [],
          if q.id.None? then [QuestionCreated(r, c, qi, id, roundId, categoryId)] else [])
  }

  function QuestionStep(r: nat, c: nat, roundId: RowId, categoryId: RowId): (nat, nat, QuestionEntry) -> Batch<StoredQuestion> {
    (qi: nat, count: nat, q: QuestionEntry) => QuestionBatch(r, c, qi, roundId, categoryId, q)
  }

  /** The surviving questions of category `c` of round `r`, stored under `categoryId`. */
  function QuestionsBatch(r: nat, c: nat, roundId: RowId, categoryId: RowId, kept: seq<QuestionEntry>): Batch<StoredQuestion> {
    Fold(kept, QuestionStep(r, c, roundId, categoryId))
  }

  /** What one surviving category, at position `ci` among the survivors of round `r`, contributes. */
  function CategoryBatch(r: nat, ci: nat, roundId: RowId, cat: CategoryEntry): Batch<StoredCategory> {
    var kept := Filter(cat.questions, QuestionLive);
    var id := CategoryRowId(r, ci, cat);
    var questions := QuestionsBatch(r, ci, roundId, id, kept);
    Batch([StoredCategory(id, roundId, ci, cat.columns, questions.items)],
          Queued(cat.questions, QuestionLive, QuestionIdOf, QuestionTable),
          (if cat.id.None? then [CategoryCreated(r, ci, id, roundId)] else []) + questions.newIds)
  }

  function CategoryStep(r: nat, roundId: RowId): (nat, nat, CategoryEntry) -> Batch<StoredCategory> {
    (ci: nat, count: nat, cat: CategoryEntry) => CategoryBatch(r, ci, roundId, cat)
  }

  /** The surviving categories of round `r`, in order. */
  function CategoriesBatch(r: nat, roundId: RowId, kept: seq<CategoryEntry>): Batch<StoredCategory> {
    Fold(kept, CategoryStep(r, roundId))
  }

  /** What round `ri` of the input contributes when it would be stored as round number `number`. */
  function RoundBatch(ri: nat, number: nat, packId: string, round: RoundEntry): Batch<StoredRound> {
    if round.deleted then
      Batch([], if round.id.Some? then [Deletion(RoundTable, round.id.value)] else [], [])
    else
      var kept := Filter(round.categories, CategoryLive);
      var id := RoundRowId(ri, round);
      var categories := CategoriesBatch(ri, id, kept);
      Batch([StoredRound(id, packId, number, round.columns, categories.items)],
            Queued(round.categories, CategoryLive, CategoryIdOf, CategoryTable) + categories.deletes,
            (if round.id.None? then [RoundCreated(ri, id)] else []) + categories.newIds)
  }

  /** A round is numbered one more than the rounds stored before it. */
  function RoundStep(packId: string): (nat, nat, RoundEntry) -> Batch<StoredRound> {
    (ri: nat, count: nat, round: RoundEntry) => RoundBatch(ri, count + 1, packId, round)
  }

  /** The whole pack: every round in input order, numbered from 1 over the surviving ones. */
  function PackBatch(packId: string, rounds: seq<RoundEntry>): Batch<StoredRound> {
    Fold(rounds, RoundStep(packId))
  }

  /** The pack's own columns: every posted value that is not a list, except the id, keeping the stored creation time. */
  function PackColumns(data: Row, createdAt: Json): (r: Row)
    ensures "id" !in r
    ensures "created_at" in r && r["created_at"] == createdAt
    ensures forall k :: k in r && k != "created_at" ==> k in data && r[k] == data[k] && !data[k].JList?
    ensures forall k :: k in data && k != "id" && !data[k].JList? ==> k in r
  {
    var kept := map k | k in data && !data[k].JList? && k != "id" :: data[k];
    kept["created_at" := createdAt]
  }

  // Properties of the stored pack

  /** A stored category's questions point at it and never keep `extra == {}`. */
  predicate CategoryLinked(sc: StoredCategory) {
    forall k :: 0 <= k < |sc.questions| ==>
      sc.questions[k].categoryId == sc.id && sc.questions[k].extra != JObject(map[])
  }

  /** A stored round's categories point at it, are ordered 0, 1, 2, ... and are linked. */
  predicate RoundLinked(sr: StoredRound) {
    forall j :: 0 <= j < |sr.categories| ==>
      sr.categories[j].order == j && sr.categories[j].roundId == sr.id && CategoryLinked(sr.categories[j])
  }

  /** `sq` is what surviving question `q`, at position `k` of category `c` of round `r`, is stored as. */
  predicate StoredQuestionOf(sq: StoredQuestion, r: nat, c: nat, k: nat, categoryId: RowId, q: QuestionEntry) {
    && sq.id == QuestionRowId(r, c, k, q)
    && sq.columns == q.columns
    && sq.categoryId == categoryId
    && sq.extra == NormalExtra(q.extra)
  }

  /** The surviving questions are stored in order, under their category, with `extra` normalised. */
  lemma QuestionsBatchShape(r: nat, c: nat, roundId: RowId, categoryId: RowId, kept: seq<QuestionEntry>)
    ensures var b := QuestionsBatch(r, c, roundId, categoryId, kept);
      && |b.items| == |kept|
      && forall k :: 0 <= k < |kept| ==> StoredQuestionOf(b.items[k], r, c, k, categoryId, kept[k])
  {
    var good := (k: nat, q: QuestionEntry, sq: StoredQuestion) => StoredQuestionOf(sq, r, c, k, categoryId, q);
    FoldEach(kept, QuestionStep(r, c, roundId, categoryId), good);
  }

  /** `sc` is what surviving category `cat`, at position `j` of round `r`, is stored as. */
  predicate StoredCategoryOf(sc: StoredCategory, r: nat, j: nat, roundId: RowId, cat: CategoryEntry) {
    && sc.id == CategoryRowId(r, j, cat)
    && sc.columns == cat.columns
    && sc.order == j
    && sc.roundId == roundId
    && |sc.questions| == |Filter(cat.questions, QuestionLive)|
    && CategoryLinked(sc)
  }

  lemma CategoryBatchShape(r: nat, ci: nat, roundId: RowId, cat: CategoryEntry)
    ensures var b := CategoryBatch(r, ci, roundId, cat);
      |b.items| == 1 && StoredCategoryOf(b.items[0], r, ci, roundId, cat)
  {
    var id := CategoryRowId(r, ci, cat);
    QuestionsBatchShape(r, ci, roundId, id, Filter(cat.questions, QuestionLive));
  }

  /** The surviving categories of a round are stored in order, numbered by position, and linked. */
  lemma CategoriesBatchShape(r: nat, roundId: RowId, kept: seq<CategoryEntry>)
    ensures var b := CategoriesBatch(r, roundId, kept);
      && |b.items| == |kept|
      && forall j :: 0 <= j < |kept| ==> StoredCategoryOf(b.items[j], r, j, roundId, kept[j])
  {
    var step := CategoryStep(r, roundId);
    var good := (j: nat, cat: CategoryEntry, sc: StoredCategory) => StoredCategoryOf(sc, r, j, roundId, cat);
    forall ci: nat, count: nat, cat: CategoryEntry
      ensures |step(ci, count, cat).items| == 1 && good(ci, cat, step(ci, count, cat).items[0])
    {
      CategoryBatchShape(r, ci, roundId, cat);
    }
    FoldEach(kept, step, good);
  }

  /** `sr` is what surviving round `entry`, the `i`th survivor, is stored as. */
  predicate StoredRoundOf(sr: StoredRound, i: nat, packId: string, entry: RoundEntry) {
    && sr.number == i + 1
    && sr.packId == packId
    && sr.columns == entry.columns
    && (sr.id.Existing? <==> entry.id.Some?)
    && (entry.id.Some? ==> sr.id == Existing(entry.id.value))
  }

  /** A stored round's categories are the round's surviving ones, linked to it. */
  lemma RoundBatchLinked(ri: nat, number: nat, packId: string, round: RoundEntry)
    ensures var b := RoundBatch(ri, number, packId, round);
      forall i :: 0 <= i < |b.items| ==>
        |b.items[i].categories| == |Filter(round.categories, CategoryLive)| && RoundLinked(b.items[i])
  {
    if !round.deleted {
      var id := RoundRowId(ri, round);
      var kept := Filter(round.categories, CategoryLive);
      CategoriesBatchShape(ri, id, kept);
      var sr := RoundBatch(ri, number, packId, round).items[0];
      assert sr.categories == CategoriesBatch(ri, id, kept).items;
      forall j | 0 <= j < |sr.categories|
        ensures sr.categories[j].order == j && sr.categories[j].roundId == sr.id && CategoryLinked(sr.categories[j])
      {
        assert StoredCategoryOf(sr.categories[j], ri, j, id, kept[j]);
      }
    }
  }

  /**
   * Surviving rounds are stored in input order and numbered 1, 2, 3, ...;
   * deleted rounds take no number and build no row. Every stored round keeps
   * its posted id, or gets a fresh one when it had none.
   */
  lemma PackRoundsNumbered(packId: string, rounds: seq<RoundEntry>)
    ensures var b := PackBatch(packId, rounds);
      var live := Filter(rounds, RoundLive);
      && |b.items| == |live|
      && forall i :: 0 <= i < |live| ==> StoredRoundOf(b.items[i], i, packId, live[i])
  {
    var good := (i: nat, round: RoundEntry, sr: StoredRound) => StoredRoundOf(sr, i, packId, round);
    FoldSurvivors(rounds, RoundStep(packId), RoundLive, good);
  }

  /** Every stored round is linked: its categories are ordered and point at it, and their questions point at them. */
  lemma PackRoundsLinked(packId: string, rounds: seq<RoundEntry>)
    ensures var b := PackBatch(packId, rounds);
      forall i :: 0 <= i < |b.items| ==> RoundLinked(b.items[i])
  {
    var step := RoundStep(packId);
    forall ri: nat, count: nat, round: RoundEntry, j | 0 <= j < |step(ri, count, round).items|
      ensures RoundLinked(step(ri, count, round).items[j])
    {
      RoundBatchLinked(ri, count + 1, packId, round);
    }
    FoldAll(rounds, step, RoundLinked);
  }

  // What is queued for deletion

  /**
   * `d` is queued because of round entry `round`: the round itself when it is
   * marked deleted; otherwise a deleted category of it, or a deleted question
   * of one of its surviving categories. Entries without an id queue nothing.
   */
  predicate QueuedBy(d: Deletion, round: RoundEntry) {
    if round.deleted then
      round.id == Some(d.id) && d.table == RoundTable
    else
      || (d.table == CategoryTable && exists c :: c in round.categories && c.deleted && c.id == Some(d.id))
      || (d.table == QuestionTable &&
          exists c, q :: c in round.categories && !c.deleted && q in c.questions && q.deleted && q.id == Some(d.id))
  }

  /** `d` is queued for a deleted question, with an id, of one of the categories `cats`. */
  predicate QuestionQueued(d: Deletion, cats: seq<CategoryEntry>) {
    d.table == QuestionTable && exists c, q :: c in cats && q in c.questions && q.deleted && q.id == Some(d.id)
  }

  /** Each deletion a category's step queues is for one of its deleted questions. */
  lemma CategoryStepQueues(r: nat, roundId: RowId, j: nat, cat: CategoryEntry, d: Deletion)
    ensures d in CategoryStep(r, roundId)(j, 0, cat).deletes <==>
      d.table == QuestionTable && exists q :: q in cat.questions && q.deleted && q.id == Some(d.id)
  {
    assert CategoryStep(r, roundId)(j, 0, cat).deletes == Queued(cat.questions, QuestionLive, QuestionIdOf, QuestionTable);
    QueuedMembers(cat.questions, QuestionLive, QuestionIdOf, QuestionTable);
  }

  lemma CategoriesBatchDeletes(r: nat, roundId: RowId, kept: seq<CategoryEntry>)
    ensures forall d :: d in CategoriesBatch(r, roundId, kept).deletes <==> QuestionQueued(d, kept)
  {
    var step := CategoryStep(r, roundId);
    var deletes := CategoriesBatch(r, roundId, kept).deletes;
    FoldDeletes(kept, step);
    forall d: Deletion | d in deletes
      ensures QuestionQueued(d, kept)
    {
      var j :| 0 <= j < |kept| && d in step(j, 0, kept[j]).deletes;
      CategoryStepQueues(r, roundId, j, kept[j], d);
      var q :| q in kept[j].questions && q.deleted && q.id == Some(d.id);
      assert kept[j] in kept;
    }
    forall d: Deletion | QuestionQueued(d, kept)
      ensures d in deletes
    {
      var c, q :| c in kept && q in c.questions && q.deleted && q.id == Some(d.id);
      var j :| 0 <= j < |kept| && kept[j] == c;
      CategoryStepQueues(r, roundId, j, c, d);
    }
  }

  lemma RoundBatchDeletes(ri: nat, number: nat, packId: string, round: RoundEntry)
    ensures forall d :: d in RoundBatch(ri, number, packId, round).deletes <==> QueuedBy(d, round)
  {
    if !round.deleted {
      var kept := Filter(round.categories, CategoryLive);
      QueuedMembers(round.categories, CategoryLive, CategoryIdOf, CategoryTable);
      CategoriesBatchDeletes(ri, RoundRowId(ri, round), kept);
      FilterMembers(round.categories, CategoryLive);
    }
  }

  /**
   * The deletion queue of the whole pack holds exactly the ids of the entries
   * marked deleted, except those inside a deleted round or category, which go
   * with their parent.
   */
  lemma PackDeletes(packId: string, rounds: seq<RoundEntry>)
    ensures forall d :: d in PackBatch(packId, rounds).deletes <==> exists round :: round in rounds && QueuedBy(d, round)
  {
    var step := RoundStep(packId);
    var deletes := PackBatch(packId, rounds).deletes;
    FoldDeletes(rounds, step);
    forall d: Deletion | d in deletes
      ensures exists round :: round in rounds && QueuedBy(d, round)
    {
      var i :| 0 <= i < |rounds| && d in step(i, 0, rounds[i]).deletes;
      RoundStepQueues(packId, i, rounds[i], d);
      assert rounds[i] in rounds;
    }
    forall d: Deletion | exists round :: round in rounds && QueuedBy(d, round)
      ensures d in deletes
    {
      var round :| round in rounds && QueuedBy(d, round);
      var i :| 0 <= i < |rounds| && rounds[i] == round;
      RoundStepQueues(packId, i, round, d);
    }
  }

  lemma RoundStepQueues(packId: string, i: nat, round: RoundEntry, d: Deletion)
    ensures d in RoundStep(packId)(i, 0, round).deletes <==> QueuedBy(d, round)
  {
    RoundBatchDeletes(i, 1, packId, round);
  }

  // What is reported in `new_ids`

  /** `e` reports a question without an id: the `k`th survivor of the `j`th surviving category `cat` of round `ri`. */
  predicate ReportsQuestion(e: NewId, ri: nat, j: nat, roundId: RowId, cat: CategoryEntry) {
    var kept := Filter(cat.questions, QuestionLive);
    exists k :: 0 <= k < |kept| && kept[k].id.None? &&
      e == QuestionCreated(ri, j, k, NewQuestion(ri, j, k), roundId, CategoryRowId(ri, j, cat))
  }

  /** `e` reports surviving category `cat` (the `j`th of round `ri`) when it had no id, or one of its questions. */
  predicate ReportsCategory(e: NewId, ri: nat, j: nat, roundId: RowId, cat: CategoryEntry) {
    || (cat.id.None? && e == CategoryCreated(ri, j, NewCategory(ri, j), roundId))
    || ReportsQuestion(e, ri, j, roundId, cat)
  }

  /** `e` reports surviving round `round` (input position `ri`) when it had no id, or something inside it. */
  predicate ReportsRound(e: NewId, ri: nat, round: RoundEntry) {
    var kept := Filter(round.categories, CategoryLive);
    && !round.deleted
    && (|| (round.id.None? && e == RoundCreated(ri, NewRound(ri)))
        || exists j :: 0 <= j < |kept| && ReportsCategory(e, ri, j, RoundRowId(ri, round), kept[j]))
  }

  lemma QuestionsBatchNewIds(r: nat, c: nat, roundId: RowId, categoryId: RowId, kept: seq<QuestionEntry>)
    ensures forall e :: e in QuestionsBatch(r, c, roundId, categoryId, kept).newIds <==>
      exists k :: 0 <= k < |kept| && kept[k].id.None? && e == QuestionCreated(r, c, k, NewQuestion(r, c, k), roundId, categoryId)
  {
    FoldNewIds(kept, QuestionStep(r, c, roundId, categoryId));
  }

  lemma CategoryBatchNewIds(r: nat, ci: nat, roundId: RowId, cat: CategoryEntry)
    ensures forall e :: e in CategoryBatch(r, ci, roundId, cat).newIds <==> ReportsCategory(e, r, ci, roundId, cat)
  {
    QuestionsBatchNewIds(r, ci, roundId, CategoryRowId(r, ci, cat), Filter(cat.questions, QuestionLive));
  }

  lemma CategoriesBatchNewIds(r: nat, roundId: RowId, kept: seq<CategoryEntry>)
    ensures forall e :: e in CategoriesBatch(r, roundId, kept).newIds <==>
      exists j :: 0 <= j < |kept| && ReportsCategory(e, r, j, roundId, kept[j])
  {
    FoldNewIds(kept, CategoryStep(r, roundId));
    forall j | 0 <= j < |kept| {
      CategoryBatchNewIds(r, j, roundId, kept[j]);
    }
  }

  lemma RoundBatchNewIds(ri: nat, number: nat, packId: string, round: RoundEntry)
    ensures forall e :: e in RoundBatch(ri, number, packId, round).newIds <==> ReportsRound(e, ri, round)
  {
    if !round.deleted {
      CategoriesBatchNewIds(ri, RoundRowId(ri, round), Filter(round.categories, CategoryLive));
    }
  }

  /**
   * `new_ids` reports exactly the entries that were stored without an id:
   * surviving rounds, surviving categories of surviving rounds, and
   * surviving questions of those, each with the position it was stored at.
   */
  lemma PackNewIds(packId: string, rounds: seq<RoundEntry>)
    ensures forall e :: e in PackBatch(packId, rounds).newIds <==>
      exists i :: 0 <= i < |rounds| && ReportsRound(e, i, rounds[i])
  {
    var step := RoundStep(packId);
    var newIds := PackBatch(packId, rounds).newIds;
    FoldNewIds(rounds, step);
    forall e: NewId | e in newIds
      ensures exists i :: 0 <= i < |rounds| && ReportsRound(e, i, rounds[i])
    {
      var i :| 0 <= i < |rounds| && e in step(i, 0, rounds[i]).newIds;
      RoundStepReports(packId, i, rounds[i], e);
    }
    forall e: NewId | exists i :: 0 <= i < |rounds| && ReportsRound(e, i, rounds[i])
      ensures e in newIds
    {
      var i :| 0 <= i < |rounds| && ReportsRound(e, i, rounds[i]);
      RoundStepReports(packId, i, rounds[i], e);
    }
  }

  lemma RoundStepReports(packId: string, i: nat, round: RoundEntry, e: NewId)
    ensures e in RoundStep(packId)(i, 0, round).newIds <==> ReportsRound(e, i, round)
  {
    RoundBatchNewIds(i, 1, packId, round);
  }

  /** In particular, a round is reported as created exactly when it survives and had no id. */
  lemma PackRoundCreated(packId: string, rounds: seq<RoundEntry>, i: nat)
    requires i < |rounds|
    ensures RoundCreated(i, NewRound(i)) in PackBatch(packId, rounds).newIds <==> !rounds[i].deleted && rounds[i].id.None?
  {
    PackNewIds(packId, rounds);
    var e := RoundCreated(i, NewRound(i));
    if e in PackBatch(packId, rounds).newIds {
      var i' :| 0 <= i' < |rounds| && ReportsRound(e, i', rounds[i']);
      assert i' == i;
    }
  }

  /** The question loop of one category, proved against `QuestionsBatch`. */
  method SaveQuestions(r: nat, c: nat, roundId: RowId, categoryId: RowId, kept: seq<QuestionEntry>)
    returns (stored: seq<StoredQuestion>, newIds: seq<NewId>)
    ensures Batch(stored, [], newIds) == QuestionsBatch(r, c, roundId, categoryId, kept)
  {
    stored := [];
    newIds := [];
    var qi := 0;
    while qi < |kept|
      invariant qi <= |kept|
      invariant Batch(stored, [], newIds) == QuestionsBatch(r, c, roundId, categoryId, kept[..qi])
    {
      var q := kept[qi];
      assert kept[..qi + 1][..qi] == kept[..qi];
      var id := if q.id.Some? then Existing(q.id.value) else NewQuestion(r, c, qi);
      stored := stored + [StoredQuestion(id, categoryId, NormalExtra(q.extra), q.columns)];
      if q.id.None? {
        newIds := newIds + [QuestionCreated(r, c, qi, id, roundId, categoryId)];
      }
      qi := qi + 1;
    }
    assert kept[..qi] == kept;
  }

  /** The body of the category loop for one surviving category, proved against `CategoryBatch`. */
  method SaveCategory(r: nat, ci: nat, roundId: RowId, cat: CategoryEntry) returns (b: Batch<StoredCategory>)
    ensures b == CategoryBatch(r, ci, roundId, cat)
  {
    var keptQuestions, questionDeletes := Partition(cat.questions, QuestionLive, QuestionIdOf, QuestionTable);
    var id := if cat.id.Some? then Existing(cat.id.value) else NewCategory(r, ci);
    var created: seq<NewId> := if cat.id.None? then [CategoryCreated(r, ci, id, roundId)] else [];
    var questions, questionIds := SaveQuestions(r, ci, roundId, id, keptQuestions);
    b := Batch([StoredCategory(id, roundId, ci, cat.columns, questions)], questionDeletes, created + questionIds);
  }

  /** The category loop of one round, proved against `CategoriesBatch`. */
  method SaveCategories(r: nat, roundId: RowId, kept: seq<CategoryEntry>)
    returns (stored: seq<StoredCategory>, deletes: seq<Deletion>, newIds: seq<NewId>)
    ensures Batch(stored, deletes, newIds) == CategoriesBatch(r, roundId, kept)
  {
    stored := [];
    deletes := [];
    newIds := [];
    var ci := 0;
    while ci < |kept|
      invariant ci <= |kept|
      invariant Batch(stored, deletes, newIds) == CategoriesBatch(r, roundId, kept[..ci])
    {
      assert kept[..ci + 1][..ci] == kept[..ci];
      var b := SaveCategory(r, ci, roundId, kept[ci]);
      stored := stored + b.items;
      deletes := deletes + b.deletes;
      newIds := newIds + b.newIds;
      ci := ci + 1;
    }
    assert kept[..ci] == kept;
  }

  /** The body of the round loop for one round, proved against `RoundBatch`. */
  method SaveRound(ri: nat, number: nat, packId: string, round: RoundEntry) returns (b: Batch<StoredRound>)
    ensures b == RoundBatch(ri, number, packId, round)
  {
    if round.deleted {
      if round.id.Some? {
        return Batch([], [Deletion(RoundTable, round.id.value)], []);
      }
      return Batch([], [], []);
    }
    var keptCategories, categoryDeletes := Partition(round.categories, CategoryLive, CategoryIdOf, CategoryTable);
    var id := if round.id.Some? then Existing(round.id.value) else NewRound(ri);
    var created: seq<NewId> := if round.id.None? then [RoundCreated(ri, id)] else [];
    var categories, laterDeletes, categoryIds := SaveCategories(ri, id, keptCategories);
    b := Batch([StoredRound(id, packId, number, round.columns, categories)],
               categoryDeletes + laterDeletes, created + categoryIds);
  }

  /**
   * `update_question_pack(data)`: the pack's columns, then every round in
   * order. The stored rounds, the deletion queue and `new_ids` are exactly
   * those of `PackBatch`.
   */
  method UpdateQuestionPack(data: Row, createdAt: Json, packId: string, rounds: seq<RoundEntry>)
    returns (packRow: Row, stored: seq<StoredRound>, deletes: seq<Deletion>, newIds: seq<NewId>)
    ensures packRow == PackColumns(data, createdAt)
    ensures Batch(stored, deletes, newIds) == PackBatch(packId, rounds)
  {
    packRow := PackColumns(data, createdAt);
    stored := [];
    deletes := [];
    newIds := [];
    var roundNum := 1;
    var ri := 0;
    while ri < |rounds|
      invariant ri <= |rounds|
      invariant roundNum == |stored| + 1
      invariant Batch(stored, deletes, newIds) == PackBatch(packId, rounds[..ri])
    {
      assert rounds[..ri + 1][..ri] == rounds[..ri];
      var b := SaveRound(ri, roundNum, packId, rounds[ri]);
      stored := stored + b.items;
      deletes := deletes + b.deletes;
      newIds := newIds + b.newIds;
      if !rounds[ri].deleted {
        roundNum := roundNum + 1;
      }
      ri := ri + 1;
    }
    assert rounds[..ri] == rounds;
  }
}
