/**
 * Two helpers of the older route package (`src/app/routes/shared.py`): the
 * request-parameter validator `validate_param`, which converts a parameter
 * and checks it against optional bounds, and `get_contestant_metadata`,
 * which finds or creates the per-contestant buzz record kept in the
 * application's configuration.
 */
module LegacyShared {
  import opened Wrappers
  import opened Text

  /** A request parameter's value as the route receives it. */
  datatype PyValue = PyStr(s: string) | PyInt(i: int) | PyNone

  /** The conversion the caller asks for (`str` or `int`). */
  datatype DType = StrType | IntType

  /** The result of `validate_param`. */
  datatype Validated =
    | Accepted(value: PyValue)     // `(dtype(value), None)`
    | Rejected(message: string)    // `(None, message)`
    | Raised                       // `int()` raised a ValueError, which the validator does not catch

  /** The outcome of calling `dtype(value)`. */
  datatype Conversion = Converted(value: PyValue) | TypeError | ValueError

  /** Python's `str(value)` / `int(value)` on a parameter value. */
  function Convert(dtype: DType, v: PyValue): (c: Conversion)
    ensures dtype == StrType ==> c.Converted? && c.value.PyStr?
    ensures dtype == IntType ==> (c.Converted? ==> c.value.PyInt?)
    ensures dtype == IntType && v.PyInt? ==> c == Converted(v)
    ensures c.TypeError? <==> dtype == IntType && v.PyNone?
  {
    match dtype
    case StrType =>
      Converted(PyStr(match v case PyStr(s) => s case PyInt(i) => IntToString(i) case PyNone => "None"))
    case IntType =>
      match v
      case PyInt(i) => Converted(PyInt(i))
      case PyNone => TypeError
      case PyStr(s) =>
        match ParsePyInt(s)
        case Some(n) => Converted(PyInt(n))
        case None => ValueError
  }

  /** `'Key'`: the key capitalised and quoted, as the messages show it. */
  function Quoted(key: string): string {
    "'" + Capitalize(key) + "'"
  }

  /** The size of a converted value that the bounds apply to: the number itself, or a string's length. */
  function Measure(v: PyValue): Option<int> {
    match v
    case PyInt(i) => Some(i)
    case PyStr(s) => Some(|s|)
    case PyNone => None
  }

  /**
   * `validate_param(params, key, dtype, min_len, max_len)`. Both bounds are
   * inclusive; a conversion TypeError is reported as "must be a number"
   * whatever `dtype` was, because the source compares `dtype` with
   * `type(str)`, which is `type` itself.
   */
  function ValidateParam(params: map<string, PyValue>, key: string, dtype: DType,
                         minLen: Option<int>, maxLen: Option<int>): (r: Validated)
    ensures key !in params ==> r == Rejected(Quoted(key) + " is required")
    ensures key in params && Convert(dtype, params[key]).TypeError? ==>
      r == Rejected("'" + key + "' must be a number")
    ensures key in params && Convert(dtype, params[key]).ValueError? <==> r.Raised?
    ensures r.Accepted? <==>
      key in params && Convert(dtype, params[key]).Converted?
      && var m := Measure(Convert(dtype, params[key]).value).value;
         (minLen.None? || minLen.value <= m) && (maxLen.None? || m <= maxLen.value)
    ensures r.Accepted? ==> r.value == Convert(dtype, params[key]).value
  {
    if key !in params then
      Rejected(Quoted(key) + " is required")
    else
      match Convert(dtype, params[key])
      case ValueError => Raised
      case TypeError =>
        // `dtype == type(str)` never holds, so the message always says "a number"
        Rejected("'" + key + "' must be a number")
      case Converted(val) =>
        if minLen.Some? && val.PyInt? && val.i < minLen.value then
          Rejected(Quoted(key) + " must be larger than " + IntToString(minLen.value))
        else if minLen.Some? && val.PyStr? && |val.s| < minLen.value then
          Rejected(Quoted(key) + " must be longer than " + IntToString(minLen.value) + " characters")
        else if maxLen.Some? && val.PyInt? && val.i > maxLen.value then
          Rejected(Quoted(key) + " must be less than " + IntToString(maxLen.value))
        else if maxLen.Some? && val.PyStr? && |val.s| > maxLen.value then
          Rejected(Quoted(key) + " must be less than " + IntToString(maxLen.value) + " characters")
        else
          Accepted(val)
  }

  /** A numeric parameter equal to either bound is accepted, and converted to the number. */
  lemma BoundsInclusive(params: map<string, PyValue>, key: string, lo: int, hi: int)
    requires key in params && lo <= hi
    requires params[key] == PyStr(IntToString(lo)) || params[key] == PyStr(IntToString(hi))
    ensures ValidateParam(params, key, IntType, Some(lo), Some(hi)).Accepted?
    ensures ValidateParam(params, key, IntType, Some(lo), Some(hi)).value.PyInt?
  {
    ParsePyIntOfIntToString(lo);
    ParsePyIntOfIntToString(hi);
  }

  /** A number below the lower bound is rejected with the "larger than" message. */
  lemma BelowMinimumRejected(params: map<string, PyValue>, key: string, lo: int, n: int)
    requires key in params && params[key] == PyInt(n) && n < lo
    ensures ValidateParam(params, key, IntType, Some(lo), None)
         == Rejected(Quoted(key) + " must be larger than " + IntToString(lo))
  {
  }

  /** The per-contestant buzz record: ping estimate and the time of the latest buzz. */
  class ContestantMetadata {
    var ping: int
    var latestBuzz: Option<int>

    constructor ()
      ensures ping == 30 && latestBuzz == None
    {
      ping := 30;
      latestBuzz := None;
    }
  }

  /** `config["CONTESTANT_METADATA"]`: game id to contestant id to record. */
  class MetadataStore {
    var games: map<string, map<string, ContestantMetadata>>

    constructor ()
      ensures games == map[]
    {
      games := map[];
    }

    /** The records stored for a game, empty when the game has none yet. */
    function Entries(gameId: string): map<string, ContestantMetadata>
      reads this
    {
      if gameId in games then games[gameId] else map[]
    }

    predicate Has(gameId: string, contestantId: string)
      reads this
    {
      gameId in games && contestantId in games[gameId]
    }

    /**
     * `get_contestant_metadata`: the stored record, or a fresh default record
     * (ping 30, no buzz) that is stored first.
     */
    method GetContestantMetadata(gameId: string, contestantId: string) returns (data: ContestantMetadata)
      modifies this
      ensures Has(gameId, contestantId) && games[gameId][contestantId] == data
      ensures old(Has(gameId, contestantId)) ==> games == old(games) && data == old(games[gameId][contestantId])
      ensures !old(Has(gameId, contestantId)) ==>
        fresh(data) && data.ping == 30 && data.latestBuzz == None
        && games == old(games)[gameId := old(Entries(gameId))[contestantId := data]]
    {
      if gameId in games && contestantId in games[gameId] {
        data := games[gameId][contestantId];
      } else {
        if gameId !in games {
          games := games[gameId := map[]];
        }
        data := new ContestantMetadata();
        games := games[gameId := games[gameId][contestantId := data]];
      }
    }
  }

  /** Two lookups of the same contestant return the same record, and the second changes nothing. */
  method LookupTwice(store: MetadataStore, gameId: string, contestantId: string)
    returns (first: ContestantMetadata, second: ContestantMetadata)
    modifies store
    ensures first == second
    ensures store.Has(gameId, contestantId) && store.games[gameId][contestantId] == first
  {
    first := store.GetContestantMetadata(gameId, contestantId);
    ghost var between := store.games;
    second := store.GetContestantMetadata(gameId, contestantId);
    assert store.games == between;
  }
}
