/**
 * Helpers of the route package shared by the dashboard, presenter and
 * contestant pages (`src/jeoparty/app/routes/shared.py`): the locale merge,
 * the message built from a model validation error, the coercion of form
 * fields into model columns, the choice of correct and wrong answer sounds,
 * and the validation of an uploaded file's name with its collision-avoiding
 * suffix loop.
 *
 * The file system is a set of existing paths, `werkzeug.secure_filename`,
 * the name pattern, enum lookup, float parsing and pydantic validation are
 * parameters, and `random.choice` / `random.shuffle` are an index and a
 * rearranging function.
 */
module SharedRoutes {
  import opened Wrappers
  import opened Text
  import opened SeqUtil

  // ---------------------------------------------------------------------
  // get_locale_data
  // ---------------------------------------------------------------------

  /** One page of a locale: text key to translated text. */
  type Page = map<string, string>

  /** The page's own keys with the "global" page's keys laid over them. */
  function MergedPage(pages: map<string, Page>, page: string): (m: Page)
    ensures forall k :: k in m <==>
      (page in pages && k in pages[page]) || ("global" in pages && k in pages["global"])
    ensures forall k :: "global" in pages && k in pages["global"] ==> m[k] == pages["global"][k]
    ensures forall k :: page in pages && k in pages[page] && ("global" !in pages || k !in pages["global"]) ==>
      m[k] == pages[page][k]
  {
    var own: Page := if page in pages then pages[page] else map[];
    var global: Page := if "global" in pages then pages["global"] else map[];
    own + global
  }

  /** Storing a merged page back and merging again gives the same page. */
  lemma MergeIdempotent(pages: map<string, Page>, page: string)
    ensures MergedPage(pages[page := MergedPage(pages, page)], page) == MergedPage(pages, page)
  {
    var m := MergedPage(pages, page);
    var again := MergedPage(pages[page := m], page);
    assert forall k :: k in again <==> k in m;
    assert forall k :: k in again ==> again[k] == m[k];
  }

  /** `config["LOCALES"]`: language code to page name to texts. */
  class LocaleStore {
    var locales: map<string, map<string, Page>>

    constructor (locales: map<string, map<string, Page>>)
      ensures this.locales == locales
    {
      this.locales := locales;
    }

    /**
     * `get_locale_data(language, page)`: None for an unknown language, else the
     * merged page. `dict.update` writes the global keys into the stored page
     * dictionary itself when that page exists.
     */
    method GetLocaleData(language: string, page: string) returns (r: Option<Page>)
      modifies this
      ensures language !in old(locales) ==> r == None && locales == old(locales)
      ensures language in old(locales) ==> r == Some(MergedPage(old(locales)[language], page))
      ensures language in old(locales) && page in old(locales)[language] ==>
        locales == old(locales)[language := old(locales)[language][page := r.value]]
      ensures language in old(locales) && page !in old(locales)[language] ==> locales == old(locales)
    {
      if language !in locales {
        return None;
      }
      var pages := locales[language];
      var merged := MergedPage(pages, page);
      if page in pages {
        locales := locales[language := pages[page := merged]];
      }
      return Some(merged);
    }
  }

  /** The write-back is harmless: asking twice for the same page gives the same texts. */
  method LocaleLookupTwice(store: LocaleStore, language: string, page: string)
    returns (first: Option<Page>, second: Option<Page>)
    modifies store
    ensures first == second
    ensures first.None? <==> language !in store.locales
  {
    first := store.GetLocaleData(language, page);
    if first.Some? {
      ghost var pages := old(store.locales)[language];
      MergeIdempotent(pages, page);
    }
    second := store.GetLocaleData(language, page);
  }

  // ---------------------------------------------------------------------
  // get_validation_error_msg and create_and_validate_model
  // ---------------------------------------------------------------------

  /** One pydantic error: the field it is about, its error type and its message. */
  datatype ErrorDetail = ErrorDetail(loc: string, kind: string, msg: string)

  /** The field name as shown to the user: underscores become spaces, then `str.capitalize`. */
  function FieldLabel(loc: string): (r: string)
    ensures |r| == |loc|
    ensures forall i :: 0 < i < |loc| ==> r[i] == LowerChar(if loc[i] == '_' then ' ' else loc[i])
  {
    Capitalize(ReplaceChar(loc, '_', ' '))
  }

  /** The pydantic error types `get_validation_error_msg` singles out. */
  const PatternMismatch: string := "string_pattern_mismatch"
  const TooLong: string := "string_too_long"
  const TooShort: string := "string_too_short"

  /** `'Label'`: the field label in quotes. */
  function QuotedLabel(loc: string): string {
    "'" + FieldLabel(loc) + "'"
  }

  /**
   * `get_validation_error_msg`: every message starts with the quoted field
   * label; a pattern mismatch gets a fixed text, a length error keeps the
   * pydantic message without its "String " words, and anything else is
   * appended after a dash.
   */
  function ValidationErrorMsg(d: ErrorDetail): (r: string)
    ensures StartsWith(r, QuotedLabel(d.loc) + " ")
    ensures d.kind == PatternMismatch ==> r == QuotedLabel(d.loc) + " contains invalid characters"
    ensures d.kind != PatternMismatch && d.kind != TooLong && d.kind != TooShort ==>
      r[|QuotedLabel(d.loc)| + 1..] == "- " + d.msg
  {
    var shown := QuotedLabel(d.loc);
    if d.kind == PatternMismatch then
      shown + " contains invalid characters"
    else if d.kind == TooLong || d.kind == TooShort then
      shown + " " + ReplaceAll(d.msg, "String ", "")
    else
      shown + " - " + d.msg
  }

  /** A length error's "String should have ..." message loses its leading "String ". */
  lemma LengthMessageDropsPrefix(d: ErrorDetail, rest: string)
    requires d.kind == TooLong || d.kind == TooShort
    requires d.msg == "String " + rest && Find(rest, "String ") == -1
    ensures ValidationErrorMsg(d) == QuotedLabel(d.loc) + " " + rest
  {
    assert OccursAt(d.msg, "String ", 0);
    assert d.msg[|"String "|..] == rest;
  }

  /** The type of a model column, as far as the coercion distinguishes it. */
  datatype ColumnType = IntColumn | FloatColumn | BoolColumn | EnumColumn | StrColumn | OtherColumn

  datatype Column = Column(name: string, kind: ColumnType)

  /** A value handed to the model's constructor. */
  datatype Field = IntField(i: int) | FloatField(f: real) | BoolField(b: bool) | EnumField(member: string) | TextField(s: string)

  /** What calling the enum class on a form value does. */
  datatype EnumLookup = Member(name: string) | NoAttribute | BadValue

  /** What the coercion does with one column. */
  datatype Coercion = Keep(field: Field) | Omit | Raise

  /**
   * The loop body of `create_and_validate_model` for one column: numbers are
   * parsed (a bad number raises), a bool column maps "on" to true and "off" or
   * a missing value to false, an enum that raises AttributeError is skipped,
   * an empty text becomes None, and None is left out of the model data.
   */
  function CoerceColumn(col: Column, data: map<string, string>,
                        parseFloat: string -> Option<real>, lookupEnum: string -> EnumLookup): (r: Coercion)
    ensures col.kind == BoolColumn ==> r.Keep?
    ensures col.kind == BoolColumn && (col.name !in data || data[col.name] == "off") ==> r == Keep(BoolField(false))
    ensures col.kind == BoolColumn && col.name in data && data[col.name] == "on" ==> r == Keep(BoolField(true))
    ensures col.kind == StrColumn ==> (r.Omit? <==> col.name !in data || data[col.name] == "")
    ensures col.kind == IntColumn && col.name in data ==>
      (r.Raise? <==> ParsePyInt(data[col.name]).None?) && (r.Keep? ==> r.field == IntField(ParsePyInt(data[col.name]).value))
    ensures col.name !in data && col.kind != BoolColumn ==> r.Omit?
    ensures r.Raise? ==> col.name in data && col.kind in {IntColumn, FloatColumn, EnumColumn}
  {
    if col.name !in data then
      if col.kind == BoolColumn then Keep(BoolField(false)) else Omit
    else
      var v := data[col.name];
      match col.kind
      case IntColumn =>
        (match ParsePyInt(v) case Some(n) => Keep(IntField(n)) case None => Raise)
      case FloatColumn =>
        (match parseFloat(v) case Some(x) => Keep(FloatField(x)) case None => Raise)
      case BoolColumn =>
        if v == "on" then Keep(BoolField(true))
        else if v == "off" then Keep(BoolField(false))
        else Keep(TextField(v))
      case EnumColumn =>
        (match lookupEnum(v) case Member(m) => Keep(EnumField(m)) case NoAttribute => Omit case BadValue => Raise)
      case StrColumn =>
        if v == "" then Omit else Keep(TextField(v))
      case OtherColumn =>
        Keep(TextField(v))
  }

  /** The model data after the loop over `columns`; None when a conversion raised. */
  function CoerceAll(columns: seq<Column>, data: map<string, string>,
                     parseFloat: string -> Option<real>, lookupEnum: string -> EnumLookup): Option<map<string, Field>>
    decreases |columns|
  {
    if |columns| == 0 then Some(map[])
    else
      var last := columns[|columns| - 1];
      match CoerceAll(columns[..|columns| - 1], data, parseFloat, lookupEnum)
      case None => None
      case Some(m) =>
        match CoerceColumn(last, data, parseFloat, lookupEnum)
        case Raise => None
        case Omit => Some(m)
        case Keep(f) => Some(m[last.name := f])
  }

  predicate DistinctNames(columns: seq<Column>) {
    forall i, j :: 0 <= i < j < |columns| ==> columns[i].name != columns[j].name
  }

  /** The coercion succeeds exactly when no column raises. */
  lemma {:induction false} CoerceAllSucceeds(columns: seq<Column>, data: map<string, string>,
                                             parseFloat: string -> Option<real>, lookupEnum: string -> EnumLookup)
    ensures CoerceAll(columns, data, parseFloat, lookupEnum).Some? <==>
      forall i :: 0 <= i < |columns| ==> !CoerceColumn(columns[i], data, parseFloat, lookupEnum).Raise?
    decreases |columns|
  {
    if |columns| > 0 {
      var init := columns[..|columns| - 1];
      CoerceAllSucceeds(init, data, parseFloat, lookupEnum);
      assert forall i :: 0 <= i < |init| ==> init[i] == columns[i];
    }
  }

  /**
   * With distinct column names, a successful coercion holds each column with
   * its coerced value, or not at all when it was left out; no other key appears.
   */
  lemma {:induction false} CoerceAllFields(columns: seq<Column>, data: map<string, string>,
                                           parseFloat: string -> Option<real>, lookupEnum: string -> EnumLookup)
    requires DistinctNames(columns)
    ensures CoerceAll(columns, data, parseFloat, lookupEnum).Some? ==>
      var m := CoerceAll(columns, data, parseFloat, lookupEnum).value;
      (forall k :: k in m ==> exists i :: 0 <= i < |columns| && columns[i].name == k)
      && (forall i :: 0 <= i < |columns| ==>
            match CoerceColumn(columns[i], data, parseFloat, lookupEnum)
            case Keep(f) => columns[i].name in m && m[columns[i].name] == f
            case _ => columns[i].name !in m)
    decreases |columns|
  {
    if |columns| > 0 {
      var init := columns[..|columns| - 1];
      assert DistinctNames(init);
      CoerceAllFields(init, data, parseFloat, lookupEnum);
      var last := columns[|columns| - 1];
      assert forall i :: 0 <= i < |init| ==> init[i] == columns[i];
      assert forall i :: 0 <= i < |init| ==> init[i].name != last.name;
    }
  }


  /** The coercion loop of `create_and_validate_model`, proved against `CoerceAll`. */
  method CoerceForm(columns: seq<Column>, data: map<string, string>,
                    parseFloat: string -> Option<real>, lookupEnum: string -> EnumLookup)
    returns (r: Option<map<string, Field>>)
    ensures r == CoerceAll(columns, data, parseFloat, lookupEnum)
  {
    var modelData: map<string, Field> := map[];
    var i := 0;
    while i < |columns|
      invariant i <= |columns|
      invariant CoerceAll(columns[..i], data, parseFloat, lookupEnum) == Some(modelData)
    {
      assert columns[..i + 1][..i] == columns[..i];
      match CoerceColumn(columns[i], data, parseFloat, lookupEnum) {
        case Raise =>
          RaiseStaysRaised(columns, data, parseFloat, lookupEnum, i + 1);
          return None;
        case Omit =>
        case Keep(f) =>
          modelData := modelData[columns[i].name := f];
      }
      i := i + 1;
    }
    assert columns[..i] == columns;
    return Some(modelData);
  }

  /** Once a column has raised, the whole coercion has raised. */
  lemma {:induction false} RaiseStaysRaised(columns: seq<Column>, data: map<string, string>,
                                            parseFloat: string -> Option<real>, lookupEnum: string -> EnumLookup, n: nat)
    requires n <= |columns|
    requires CoerceAll(columns[..n], data, parseFloat, lookupEnum).None?
    ensures CoerceAll(columns, data, parseFloat, lookupEnum).None?
    decreases |columns| - n
  {
    if n < |columns| {
      assert columns[..n + 1][..n] == columns[..n];
      RaiseStaysRaised(columns, data, parseFloat, lookupEnum, n + 1);
    } else {
      assert columns[..n] == columns;
    }
  }

  /** The outcome of `create_and_validate_model`. */
  datatype Creation = Created(fields: map<string, Field>) | Invalid(message: string) | Crashed

  /** The messages of a validation error joined with ", ". */
  function ErrorList(errors: seq<ErrorDetail>): string {
    Join(seq(|errors|, i requires 0 <= i < |errors| => ValidationErrorMsg(errors[i])), ", ")
  }

  /**
   * `create_and_validate_model(model_cls, data, action)`: the coerced fields
   * are handed to the model, whose validation errors (from `validate`) become
   * one message; a conversion error other than a validation error is not caught.
   */
  method CreateAndValidateModel(columns: seq<Column>, data: map<string, string>, action: string,
                                parseFloat: string -> Option<real>, lookupEnum: string -> EnumLookup,
                                validate: map<string, Field> -> seq<ErrorDetail>)
    returns (r: Creation)
    ensures r.Crashed? <==> CoerceAll(columns, data, parseFloat, lookupEnum).None?
    ensures r.Created? ==> r.fields == CoerceAll(columns, data, parseFloat, lookupEnum).value && validate(r.fields) == []
    ensures r.Invalid? ==>
      var errors := validate(CoerceAll(columns, data, parseFloat, lookupEnum).value);
      errors != [] && r.message == "Error when " + action + ": " + ErrorList(errors)
  {
    var coerced := CoerceForm(columns, data, parseFloat, lookupEnum);
    if coerced.None? {
      return Crashed;
    }
    var errors := validate(coerced.value);
    if errors == [] {
      return Created(coerced.value);
    }
    return Invalid("Error when " + action + ": " + ErrorList(errors));
  }

  // ---------------------------------------------------------------------
  // get_question_answer_sounds
  // ---------------------------------------------------------------------

  datatype BuzzerSound = BuzzerSound(filename: string, correct: bool)

  datatype Theme = Theme(id: string, buzzerSounds: seq<BuzzerSound>)

  const DefaultCorrectSound: string := "data/sounds/correct_answer.mp3"
  const DefaultWrongSound: string := "data/sounds/wrong_answer.mp3"

  /** How many of `sounds` are of the kind `correct`. */
  function KindCount(sounds: seq<BuzzerSound>, correct: bool): nat {
    multiset(seq(|sounds|, i requires 0 <= i < |sounds| => sounds[i].correct))[correct]
  }

  lemma KindCountCons(sounds: seq<BuzzerSound>, correct: bool)
    requires |sounds| > 0
    ensures KindCount(sounds, correct) == (if sounds[0].correct == correct then 1 else 0) + KindCount(sounds[1..], correct)
  {
    var tail := sounds[1..];
    assert seq(|sounds|, i requires 0 <= i < |sounds| => sounds[i].correct)
      == [sounds[0].correct] + seq(|tail|, i requires 0 <= i < |tail| => tail[i].correct);
  }

  /**
   * The theme's sound files of one kind, under the theme's directory: one
   * path per sound of that kind, and only those.
   */
  function ThemeSounds(themeDir: string, sounds: seq<BuzzerSound>, correct: bool): (r: seq<string>)
    ensures |r| == KindCount(sounds, correct)
    ensures forall x :: x in r <==>
      exists b :: b in sounds && b.correct == correct && x == themeDir + "/sounds/" + b.filename
    decreases |sounds|
  {
    if |sounds| == 0 then []
    else
      var rest := ThemeSounds(themeDir, sounds[1..], correct);
      KindCountCons(sounds, correct);
      if sounds[0].correct == correct then [themeDir + "/sounds/" + sounds[0].filename] + rest else rest
  }

  /** The theme's wrong-answer sounds; none without a theme. */
  function WrongThemeSounds(theme: Option<Theme>, themeDir: string): seq<string> {
    if theme.None? then [] else ThemeSounds(themeDir, theme.value.buzzerSounds, false)
  }

  /**
   * The correct-answer sound: one of the theme's correct sounds chosen by
   * `pick`, or the default without a theme or when it has none.
   */
  function CorrectSound(theme: Option<Theme>, themeDir: string, pick: nat): (r: string)
    ensures theme.None? ==> r == DefaultCorrectSound
    ensures theme.Some? ==>
      var own := ThemeSounds(themeDir, theme.value.buzzerSounds, true);
      (own == [] ==> r == DefaultCorrectSound) && (own != [] ==> r in own)
  {
    if theme.None? then DefaultCorrectSound
    else
      var own := ThemeSounds(themeDir, theme.value.buzzerSounds, true);
      if own == [] then DefaultCorrectSound else own[pick % |own|]
  }

  /** `wrong_sounds` padded with the default sound up to `n` entries. */
  function Padded(wrong: seq<string>, n: nat): (r: seq<string>)
    ensures |r| == if |wrong| < n then n else |wrong|
    ensures r[..|wrong|] == wrong
    ensures forall i :: |wrong| <= i < |r| ==> r[i] == DefaultWrongSound
  {
    if |wrong| < n then wrong + seq(n - |wrong|, _ => DefaultWrongSound) else wrong
  }

  /**
   * The wrong-answer sounds: the theme's own, padded with the default, shuffled
   * and cut to `maxContestants` entries. `shuffle` stands for `random.shuffle`
   * and may rearrange its input in any way.
   */
  function WrongSounds(theme: Option<Theme>, themeDir: string, maxContestants: nat,
                       shuffle: seq<string> -> seq<string>): (r: seq<string>)
    requires forall s :: multiset(shuffle(s)) == multiset(s)
    ensures |r| == maxContestants
    ensures forall i :: 0 <= i < |r| ==> r[i] == DefaultWrongSound || r[i] in WrongThemeSounds(theme, themeDir)
  {
    var padded := Padded(WrongThemeSounds(theme, themeDir), maxContestants);
    var shuffled := shuffle(padded);
    assert |shuffled| == |multiset(padded)|;
    assert forall i :: 0 <= i < |shuffled| ==> shuffled[i] in multiset(padded);
    shuffled[..maxContestants]
  }

  /** With no more theme sounds than contestants, every theme sound is kept and the rest are defaults. */
  lemma WrongSoundsKeepTheme(theme: Option<Theme>, themeDir: string, maxContestants: nat,
                             shuffle: seq<string> -> seq<string>)
    requires forall s :: multiset(shuffle(s)) == multiset(s)
    requires |WrongThemeSounds(theme, themeDir)| <= maxContestants
    ensures var own := WrongThemeSounds(theme, themeDir);
      multiset(WrongSounds(theme, themeDir, maxContestants, shuffle))
        == multiset(own) + multiset(seq(maxContestants - |own|, _ => DefaultWrongSound))
  {
    var own := WrongThemeSounds(theme, themeDir);
    var padded := Padded(own, maxContestants);
    var shuffled := shuffle(padded);
    assert |shuffled| == |multiset(padded)| == maxContestants;
    assert shuffled[..maxContestants] == shuffled;
    if |own| == maxContestants {
      assert seq(maxContestants - |own|, _ => DefaultWrongSound) == [];
    }
  }

  /** With more theme sounds than contestants, only theme sounds are used, each at most as often as the theme lists it. */
  lemma WrongSoundsFromTheme(theme: Option<Theme>, themeDir: string, maxContestants: nat,
                             shuffle: seq<string> -> seq<string>)
    requires forall s :: multiset(shuffle(s)) == multiset(s)
    requires |WrongThemeSounds(theme, themeDir)| >= maxContestants
    ensures multiset(WrongSounds(theme, themeDir, maxContestants, shuffle)) <= multiset(WrongThemeSounds(theme, themeDir))
  {
    var own := WrongThemeSounds(theme, themeDir);
    var shuffled := shuffle(Padded(own, maxContestants));
    assert |shuffled| == |multiset(own)|;
    assert shuffled == shuffled[..maxContestants] + shuffled[maxContestants..];
  }

  /** `get_question_answer_sounds(theme, max_contestants)`. */
  function AnswerSounds(theme: Option<Theme>, themeDir: string, maxContestants: nat, pick: nat,
                        shuffle: seq<string> -> seq<string>): (r: (string, seq<string>))
    requires forall s :: multiset(shuffle(s)) == multiset(s)
    ensures r.0 == CorrectSound(theme, themeDir, pick)
    ensures |r.1| == maxContestants
  {
    (CorrectSound(theme, themeDir, pick), WrongSounds(theme, themeDir, maxContestants, shuffle))
  }

  // ---------------------------------------------------------------------
  // validate_file
  // ---------------------------------------------------------------------

  /** The last element of a non-empty sequence. */
  function Last<T>(s: seq<T>): T
    requires |s| > 0
  {
    s[|s| - 1]
  }

  /** `os.path.basename`: the text after the last '/'. */
  function Basename(p: string): string {
    Last(Split(p, '/'))
  }

  /** Python's `str` of a list of strings: `['png', 'jpg']`. */
  function PyListRepr(items: seq<string>): string {
    "[" + Join(seq(|items|, i requires 0 <= i < |items| => "'" + items[i] + "'"), ", ") + "]"
  }

  /** The uploaded file's extension: its last dot-part, lower-cased. */
  function Extension(filename: string): string {
    Lower(Last(Split(filename, '.')))
  }

  /**
   * The checks of `validate_file` before the suffix loop, giving the name the
   * file is stored under or the message of the refusal. `secureFilename` is
   * `werkzeug.secure_filename`, `validName` the name pattern and
   * `patternText` its printed form.
   */
  function ChosenName(filename: string, validTypes: seq<string>, defaultName: Option<string>,
                      secureFilename: string -> string, validName: string -> bool, patternText: string)
    : (r: Result<string, string>)
    ensures filename == "" ==> r == Err("File name is empty")
    ensures filename != "" && Extension(filename) !in validTypes ==>
      r == Err("File is not a valid type (must be one of: " + PyListRepr(validTypes) + ")")
    ensures defaultName.Some? ==> (r.Ok? <==> filename != "" && Extension(filename) in validTypes)
    ensures r.Ok? && defaultName.Some? ==> r.value == defaultName.value
    ensures defaultName.None? ==>
      var secure := secureFilename(Split(filename, '.')[0] + "." + Extension(filename));
      (r.Ok? <==> filename != "" && Extension(filename) in validTypes && secure != ""
                  && validName(Basename(Split(secure, '.')[0])))
      && (r.Ok? ==> r.value == secure)
  {
    if filename == "" then Err("File name is empty")
    else
      var ext := Extension(filename);
      if ext !in validTypes then
        Err("File is not a valid type (must be one of: " + PyListRepr(validTypes) + ")")
      else if defaultName.Some? then
        Ok(defaultName.value)
      else
        var secure := secureFilename(Split(filename, '.')[0] + "." + ext);
        if secure == "" then Err("Filename contains invalid characters")
        else if !validName(Basename(Split(secure, '.')[0])) then
          Err("Filename contains an invalid character. Must be of the pattern '" + patternText + "'")
        else Ok(secure)
  }

  /** One turn of the suffix loop: `f"{split[0]}_{suffix}.{split[1]}"`, or None when `split[1]` does not exist. */
  function Rename(name: string, suffix: nat): Option<string> {
    var parts := Split(name, '.');
    if |parts| < 2 then None else Some(parts[0] + "_" + NatToString(suffix) + "." + parts[1])
  }

  /** The name after `k` turns of the suffix loop (suffixes 1 .. k). */
  function Candidate(name: string, k: nat): Option<string>
    decreases k
  {
    if k == 0 then Some(name)
    else match Candidate(name, k - 1)
      case None => None
      case Some(prev) => Rename(prev, k)
  }

  /** A name whose split gives one part has no separator. */
  lemma SplitSingle(t: string, sep: char)
    requires |Split(t, sep)| == 1
    ensures sep !in t
  {
  }

  /** A name with exactly two dot-parts is those parts joined by the dot. */
  lemma SplitTwo(s: string, sep: char)
    requires |Split(s, sep)| == 2
    ensures s == Split(s, sep)[0] + [sep] + Split(s, sep)[1]
  {
    if sep !in s {
      SplitNoSep(s, sep);
    } else {
      var i := IndexOf(s, sep);
      assert s == s[..i] + [sep] + s[i + 1..];
      SplitSingle(s[i + 1..], sep);
      SplitNoSep(s[i + 1..], sep);
    }
  }

  /** Renaming `a.b` (no dots in `a` or `b`) gives `a_k.b`. */
  lemma RenameOfTwoParts(a: string, b: string, suffix: nat)
    requires '.' !in a && '.' !in b
    ensures Rename(a + "." + b, suffix) == Some(a + "_" + NatToString(suffix) + "." + b)
  {
    SplitCons(a, '.', b);
    SplitNoSep(b, '.');
  }

  /** The suffixes accumulate: the second turn renames `a_1.png`, not `a.png`. */
  lemma SuffixesAccumulate()
    ensures Candidate("a.png", 1) == Some("a_1.png")
    ensures Candidate("a.png", 2) == Some("a_1_2.png")
  {
    assert NatToString(1) == "1" && NatToString(2) == "2";
    assert "a" + "." + "png" == "a.png";
    RenameOfTwoParts("a", "png", 1);
    assert "a" + "_" + "1" + "." + "png" == "a_1.png";
    assert Candidate("a.png", 1) == Rename("a.png", 1);
    assert "a_1" + "." + "png" == "a_1.png";
    RenameOfTwoParts("a_1", "png", 2);
    assert "a_1" + "_" + "2" + "." + "png" == "a_1_2.png";
    assert Candidate("a.png", 2) == Rename("a_1.png", 2);
  }

  /** A renamed name has exactly two dot-parts and is longer when the old one had two. */
  lemma RenameShape(name: string, suffix: nat)
    requires Rename(name, suffix).Some?
    ensures |Split(Rename(name, suffix).value, '.')| == 2
    ensures |Split(name, '.')| == 2 ==> |Rename(name, suffix).value| > |name|
  {
    var parts := Split(name, '.');
    var first := parts[0] + "_" + NatToString(suffix);
    assert '.' !in NatToString(suffix) by {
      assert forall i :: 0 <= i < |NatToString(suffix)| ==> IsDigit(NatToString(suffix)[i]);
    }
    assert '.' !in first;
    SplitCons(first, '.', parts[1]);
    SplitNoSep(parts[1], '.');
    assert Rename(name, suffix).value == first + ['.'] + parts[1];
    if |parts| == 2 {
      SplitTwo(name, '.');
    }
  }

  /** The candidate names before the `k`th all exist as paths. */
  ghost predicate AllTaken(path: string, name: string, existing: set<string>, k: nat) {
    forall j :: 0 <= j < k ==> Candidate(name, j).Some? && path + "/" + Candidate(name, j).value in existing
  }

  /** A taken candidate extends the run of taken candidates by one. */
  lemma TakenStep(path: string, initial: string, existing: set<string>, k: nat)
    requires AllTaken(path, initial, existing, k)
    requires Candidate(initial, k).Some? && path + "/" + Candidate(initial, k).value in existing
    ensures AllTaken(path, initial, existing, k + 1)
  {
  }

  /** The `k`th candidate is the first whose path does not exist. */
  ghost predicate FirstFree(path: string, name: string, existing: set<string>, k: nat) {
    && AllTaken(path, name, existing, k)
    && Candidate(name, k).Some?
    && path + "/" + Candidate(name, k).value !in existing
  }

  /** The greatest length of a path in `existing`. */
  ghost function LongestLength(existing: set<string>): (n: nat)
    ensures forall p :: p in existing ==> |p| <= n
    decreases existing
  {
    if existing == {} then 0
    else
      var p :| p in existing;
      var rest := LongestLength(existing - {p});
      if |p| > rest then |p| else rest
  }

  /**
   * The suffix loop of `validate_file`: the first candidate name whose path
   * does not exist, or None when a name without a dot would need a suffix
   * (`split[1]` raises IndexError).
   */
  method FreeName(path: string, initial: string, existing: set<string>) returns (r: Option<string>)
    ensures path + "/" + initial !in existing ==> r == Some(initial)
    ensures r.Some? ==> path + "/" + r.value !in existing
    ensures r.Some? ==> exists k: nat :: FirstFree(path, initial, existing, k) && r.value == Candidate(initial, k).value
    ensures r.None? ==> exists k: nat :: AllTaken(path, initial, existing, k) && Candidate(initial, k).None?
  {
    var name := initial;
    var suffix := 1;
    while path + "/" + name in existing
      invariant suffix >= 1
      invariant Candidate(initial, suffix - 1) == Some(name)
      invariant AllTaken(path, initial, existing, suffix - 1)
      decreases if |Split(name, '.')| == 2 then 0 else 1, LongestLength(existing) - |path + "/" + name|
    {
      var parts := Split(name, '.');
      if |parts| < 2 {
        assert AllTaken(path, initial, existing, suffix);
        return None;
      }
      RenameShape(name, suffix);
      TakenStep(path, initial, existing, suffix - 1);
      name := parts[0] + "_" + NatToString(suffix) + "." + parts[1];
      suffix := suffix + 1;
    }
    assert FirstFree(path, initial, existing, suffix - 1);
    return Some(name);
  }

  datatype FileCheck = Accepted(fullPath: string) | Refused(message: string) | Raised

  /**
   * `validate_file(file, path, valid_types, default_name, allow_overwrite)`:
   * the checks of `ChosenName`, then, unless overwriting is allowed, the
   * suffix loop of `FreeName`.
   */
  method ValidateFile(filename: string, path: string, validTypes: seq<string>, defaultName: Option<string>,
                      allowOverwrite: bool, existing: set<string>,
                      secureFilename: string -> string, validName: string -> bool, patternText: string)
    returns (r: FileCheck)
    ensures var chosen := ChosenName(filename, validTypes, defaultName, secureFilename, validName, patternText);
      && (r.Refused? <==> chosen.Err?)
      && (r.Refused? ==> r.message == chosen.error)
      && (chosen.Ok? && allowOverwrite ==> r == Accepted(path + "/" + chosen.value))
      && (chosen.Ok? && path + "/" + chosen.value !in existing ==> r == Accepted(path + "/" + chosen.value))
      && (r.Accepted? && !allowOverwrite ==>
            r.fullPath !in existing
            && exists k: nat :: FirstFree(path, chosen.value, existing, k) && r.fullPath == path + "/" + Candidate(chosen.value, k).value)
      && (r.Raised? ==> !allowOverwrite && exists k: nat :: AllTaken(path, chosen.value, existing, k) && Candidate(chosen.value, k).None?)
  {
    var chosen := ChosenName(filename, validTypes, defaultName, secureFilename, validName, patternText);
    if chosen.Err? {
      return Refused(chosen.error);
    }
    if allowOverwrite {
      return Accepted(path + "/" + chosen.value);
    }
    var free := FreeName(path, chosen.value, existing);
    if free.None? {
      return Raised;
    }
    return Accepted(path + "/" + free.value);
  }
}
