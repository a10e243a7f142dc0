/**
 * The data side of the question-pack editor page (`question_pack.js`): the
 * in-page copy of the pack (`questionData`), the media files waiting to be
 * uploaded (`questionMedia`), the URL hash that remembers which round and
 * question are open, and the small helpers that name media files and choose
 * default values. The DOM is not modelled: what a handler reads from the page
 * (input values, checkboxes, the selected file, whether an element exists) is
 * a parameter of the method that models it.
 */
module PackEditor {
  import opened Wrappers
  import opened Text
  import opened SeqUtil

  // ---------------------------------------------------------------------
  // Media types, extensions and generated file names

  const ImageFileTypes: seq<string> :=
    ["image/apng", "image/gif", "image/jpeg", "image/jpg", "image/pjpeg", "image/png", "image/webp"]
  const VideoFileTypes: seq<string> := ["video/webm", "video/mp4"]
  const Letters: string := "abcdefghijklmnopqrstuvwxyz0123456789"

  /** `isMediaValidType`: an accepted image or video MIME type (the source returns `true` or `null`). */
  predicate IsMediaValidType(mimeType: string) {
    mimeType in ImageFileTypes || mimeType in VideoFileTypes
  }

  /** Removing "image/" leaves a video type whole and an image type's subtype. */
  lemma ImagePrefixRemoved(mimeType: string)
    ensures mimeType in VideoFileTypes ==> ReplaceFirst(mimeType, "image/", "") == mimeType
    ensures mimeType == "image/gif" ==> ReplaceFirst(mimeType, "image/", "") == "gif"
    ensures mimeType == "image/webp" ==> ReplaceFirst(mimeType, "image/", "") == "webp"
  {
    VideoTypesHaveNoImagePrefix(mimeType);
    if mimeType == "image/gif" || mimeType == "image/webp" {
      assert StartsWith(mimeType, "image/");
      assert mimeType[6..] == if mimeType == "image/gif" then "gif" else "webp";
    }
  }

  /** "image/" cannot occur in a string whose only '/' is at index 5 and which does not start with 'i'. */
  lemma NoImagePrefix(s: string)
    requires |s| > 5 && s[5] == '/' && s[0] != 'i'
    requires forall k :: 0 <= k < |s| && k != 5 ==> s[k] != '/'
    ensures Find(s, "image/") == -1
  {
    forall j | 0 <= j
      ensures !OccursAt(s, "image/", j)
    {
      if j + 6 <= |s| {
        if j != 0 {
          assert s[j..j + 6][5] == s[j + 5] != '/';
        } else {
          assert s[j..j + 6][0] == s[0] != 'i';
        }
      }
    }
  }

  lemma VideoTypesHaveNoImagePrefix(mimeType: string)
    ensures mimeType in VideoFileTypes ==> Find(mimeType, "image/") == -1
  {
    if mimeType == "video/webm" || mimeType == "video/mp4" {
      NoImagePrefix(mimeType);
    }
  }

  /**
   * `getFileExtension`: the extension a media file is saved under. Video
   * types fall through to the generic branch, which only strips "image/",
   * so they come back whole.
   */
  function FileExtension(mimeType: string): (r: Option<string>)
    ensures mimeType == "image/jpeg" || mimeType == "image/jpg" || mimeType == "image/pjpeg" ==> r == Some("jpg")
    ensures mimeType == "image/apng" || mimeType == "image/png" ==> r == Some("png")
    ensures mimeType == "image/gif" ==> r == Some("gif")
    ensures mimeType == "image/webp" ==> r == Some("webp")
    ensures mimeType in VideoFileTypes ==> r == Some(mimeType)
    ensures r.None? <==> !IsMediaValidType(mimeType)
  {
    if mimeType == "image/jpeg" || mimeType == "image/jpg" then Some("jpg")
    else if mimeType == "image/apng" || mimeType == "image/png" then Some("png")
    else if mimeType in ImageFileTypes + VideoFileTypes then
      if mimeType == "image/jpeg" || mimeType == "image/pjpeg" then Some("jpg")
      else if mimeType == "image/apng" then Some("png")
      else
        ImagePrefixRemoved(mimeType);
        Some(ReplaceFirst(mimeType, "image/", ""))
    else None
  }

  /**
   * `getRandomFilename`: sixteen characters drawn from `Letters`, a dot and
   * the extension; null when the type has no extension. `picks` are the
   * sixteen indices `Math.floor(Math.random() * letters.length)` produced.
   */
  method GetRandomFilename(contentType: string, picks: seq<nat>) returns (r: Option<string>)
    requires |picks| == 16 && forall i :: 0 <= i < 16 ==> picks[i] < |Letters|
    ensures r.None? <==> FileExtension(contentType).None?
    ensures r.Some? ==>
      && |r.value| == 17 + |FileExtension(contentType).value|
      && (forall i :: 0 <= i < 16 ==> r.value[i] == Letters[picks[i]] && r.value[i] in Letters)
      && r.value[16..] == "." + FileExtension(contentType).value
  {
    var filename := PickLetters(picks);
    var fileExt := FileExtension(contentType);
    if fileExt.None? {
      return None;
    }
    DottedName(filename, fileExt.value);
    r := Some(filename + "." + fileExt.value);
  }

  lemma DottedName(filename: string, ext: string)
    requires |filename| == 16
    ensures var name := filename + "." + ext;
      |name| == 17 + |ext| && name[16..] == "." + ext && forall i :: 0 <= i < 16 ==> name[i] == filename[i]
  {
  }

  /** The loop of `getRandomFilename`: one letter of `Letters` per pick. */
  method PickLetters(picks: seq<nat>) returns (filename: string)
    requires |picks| == 16 && forall i :: 0 <= i < 16 ==> picks[i] < |Letters|
    ensures |filename| == 16
    ensures forall i :: 0 <= i < 16 ==> filename[i] == Letters[picks[i]] && filename[i] in Letters
  {
    filename := "";
    var i := 0;
    while i < 16
      invariant i <= 16 && |filename| == i
      invariant forall j :: 0 <= j < i ==> filename[j] == Letters[picks[j]]
    {
      filename := filename + [Letters[picks[i]]];
      i := i + 1;
    }
  }


  // ---------------------------------------------------------------------
  // The URL hash: `#question_r-c-q;round_n`

  /** `parseURLHash()`'s pair `[questionView, roundView]`; None is `null`. */
  datatype HashView = HashView(questionView: Option<seq<string>>, roundView: Option<JsNumber>)

  /** The characters `IntToString` writes are digits and '-'. */
  lemma IntToStringChars(n: int)
    ensures ';' !in IntToString(n) && '#' !in IntToString(n)
  {
    var s := IntToString(n);
    if n >= 0 {
      assert AllDigits(s);
    } else {
      assert AllDigits(s[1..]);
      assert s == "-" + s[1..];
    }
  }

  /** How one `;`-separated parameter of the hash changes the view. */
  function ApplyParam(view: HashView, param: string): HashView {
    if StartsWith(param, QuestionPrefix) then
      var split := Split(ReplaceFirst(param, QuestionPrefix, ""), '-');
      if |split| == 3 then view.(questionView := Some(split)) else view
    else if StartsWith(param, RoundPrefix) then
      view.(roundView := Some(ParseJsInt(ReplaceFirst(param, RoundPrefix, ""))))
    else view
  }

  /** The view after the parameters `params`, read left to right: a later parameter wins. */
  function ParamsView(params: seq<string>): HashView
    decreases |params|
  {
    if |params| == 0 then HashView(None, None)
    else ApplyParam(ParamsView(params[..|params| - 1]), params[|params| - 1])
  }

  function HashParams(hash: string): seq<string> {
    Split(ReplaceFirst(hash, "#", ""), ';')
  }

  /** What `parseURLHash` returns while `window.location.hash` is `hash`. */
  function ParsedView(hash: string): HashView {
    if hash == "" then HashView(None, None) else ParamsView(HashParams(hash))
  }

  function RoundText(r: JsNumber): string {
    match r
    case Int(n) => IntToString(n)
    case NaN => "NaN"
  }

  /**
   * The string `setURLHash(key, value)` assigns, given the view it parsed
   * first. The question view is interpolated as an array, which JavaScript
   * joins with commas.
   */
  function HashText(key: string, value: Option<string>, view: HashView): string {
    if key == "question" then
      var h := if value.Some? then key + "_" + value.value else "#";
      if view.roundView.Some? then
        (if value.Some? then h + ";" else h) + RoundPrefix + RoundText(view.roundView.value)
      else h
    else if key == "round" then
      var h := if view.questionView.Some? then
                 QuestionPrefix + Join(view.questionView.value, ",") + (if value.Some? then ";" else "")
               else "#";
      if value.Some? then h + key + "_" + value.value else h
    else "#"
  }

  /** Assigning `h` to `location.hash`: one leading '#' is dropped, and reading it back gives '#' and the fragment, or "" for an empty one. */
  function StoredHash(h: string): (r: string)
    ensures r == "" || r[0] == '#'
  {
    var fragment := if |h| > 0 && h[0] == '#' then h[1..] else h;
    if fragment == "" then "" else "#" + fragment
  }

  /** A part of a question view: it can hold neither separator. */
  predicate ViewPart(p: string) {
    '-' !in p && ';' !in p
  }

  lemma {:induction false} ParamsViewShape(params: seq<string>)
    requires forall k :: 0 <= k < |params| ==> ';' !in params[k]
    ensures var v := ParamsView(params).questionView;
      v.Some? ==> |v.value| == 3 && forall k :: 0 <= k < 3 ==> ViewPart(v.value[k])
    decreases |params|
  {
    if |params| > 0 {
      var n := |params| - 1;
      ParamsViewShape(params[..n]);
      var param := params[n];
      if StartsWith(param, "question_") {
        var rest := ReplaceFirst(param, "question_", "");
        assert rest == param[9..];
        SplitPartChars(rest, '-');
        var split := Split(rest, '-');
        forall k, c | 0 <= k < |split| && c in split[k]
          ensures c != ';'
        {
          assert c in rest;
        }
      }
    }
  }

  /** A question view read from any hash has three parts, none holding '-' or ';'. */
  lemma ParsedViewShape(hash: string)
    ensures var v := ParsedView(hash).questionView;
      v.Some? ==> |v.value| == 3 && forall k :: 0 <= k < 3 ==> ViewPart(v.value[k])
  {
    if hash != "" {
      ParamsViewShape(HashParams(hash));
    }
  }

  /** JavaScript's `(prefix + rest).replace(prefix, "")` is `rest`. */
  lemma PrefixRemoved(prefix: string, rest: string)
    ensures StartsWith(prefix + rest, prefix)
    ensures ReplaceFirst(prefix + rest, prefix, "") == rest
  {
    var p := prefix + rest;
    assert p[..|prefix|] == prefix;
    assert p[|prefix|..] == rest;
  }

  /** A hash stored from the parameter `p` reads back as that one parameter. */
  lemma HashOfParam(p: string)
    requires p != "" && p[0] != '#' && ';' !in p
    ensures StoredHash(p) == "#" + p && StoredHash("#" + p) == "#" + p
    ensures ParsedView("#" + p) == ApplyParam(HashView(None, None), p)
  {
    assert ("#" + p)[1..] == p;
    PrefixRemoved("#", p);
    SplitNoSep(p, ';');
    assert HashParams("#" + p) == [p];
    assert ParsedView("#" + p) == ParamsView([p]);
    assert [p][..0] == [];
  }

  /** A hash stored from `p;q` reads back as `p`, then `q`. */
  lemma HashOfParams(p: string, q: string)
    requires p != "" && p[0] != '#' && ';' !in p && ';' !in q
    ensures StoredHash(p + ";" + q) == "#" + (p + ";" + q)
    ensures ParsedView("#" + (p + ";" + q)) == ApplyParam(ApplyParam(HashView(None, None), p), q)
  {
    var h := p + ";" + q;
    assert h[0] == p[0];
    assert ("#" + h)[1..] == h;
    PrefixRemoved("#", h);
    assert Split(h, ';') == [p, q] by {
      SplitNoSep(q, ';');
      SplitCons(p, ';', q);
      assert h == p + [';'] + q;
    }
    var x := "#" + h;
    assert HashParams(x) == [p, q];
    assert ParsedView(x) == ParamsView([p, q]);
    assert [p, q][..1] == [p];
    assert ParamsView([p, q]) == ApplyParam(ParamsView([p]), q);
    assert [p][..0] == [];
    assert ParamsView([p]) == ApplyParam(HashView(None, None), p);
  }

  const QuestionPrefix := "question_"
  const RoundPrefix := "round_"

  lemma RoundParamShape(n: JsNumber)
    ensures var p := RoundPrefix + RoundText(n);
      p != "" && p[0] != '#' && ';' !in p
  {
    if n.Int? {
      IntToStringChars(n.n);
    }
    assert ';' !in RoundText(n);
  }

  lemma RoundParamApplies(n: JsNumber, v: HashView)
    ensures ApplyParam(v, RoundPrefix + RoundText(n)) == v.(roundView := Some(n))
  {
    var p := RoundPrefix + RoundText(n);
    assert p[0] != QuestionPrefix[0];
    assert !StartsWith(p, QuestionPrefix);
    PrefixRemoved(RoundPrefix, RoundText(n));
    assert ApplyParam(v, p) == v.(roundView := Some(ParseJsInt(RoundText(n))));
    ParseJsIntOfRoundText(n);
  }

  /** The round number a hash records reads back as the same number, NaN included. */
  lemma ParseJsIntOfRoundText(n: JsNumber)
    ensures ParseJsInt(RoundText(n)) == n
  {
    if n.Int? {
      ParseJsIntOfIntToString(n.n);
    } else {
      assert !IsJsWhitespace('N');
      assert JsTrimStart("NaN") == "NaN";
      assert !HasHexPrefix("NaN") && DigitPrefix("NaN") == "";
    }
  }

  lemma QuestionParamShape(value: string)
    requires ';' !in value
    ensures var p := QuestionPrefix + value;
      p != "" && p[0] != '#' && ';' !in p
  {
  }

  lemma SplitThree(r: string, c: string, q: string)
    requires ViewPart(r) && ViewPart(c) && ViewPart(q)
    ensures Split(r + "-" + c + "-" + q, '-') == [r, c, q]
  {
    SplitNoSep(q, '-');
    SplitCons(c, '-', q);
    assert c + "-" + q == c + ['-'] + q;
    SplitCons(r, '-', c + "-" + q);
    assert r + "-" + c + "-" + q == r + ['-'] + (c + "-" + q);
  }

  lemma QuestionParamApplies(r: string, c: string, q: string, v: HashView)
    requires ViewPart(r) && ViewPart(c) && ViewPart(q)
    ensures ApplyParam(v, QuestionPrefix + (r + "-" + c + "-" + q)) == v.(questionView := Some([r, c, q]))
  {
    PrefixRemoved(QuestionPrefix, r + "-" + c + "-" + q);
    SplitThree(r, c, q);
  }

  lemma JoinedViewChars(parts: seq<string>)
    requires forall k :: 0 <= k < |parts| ==> ViewPart(parts[k])
    ensures ViewPart(Join(parts, ","))
  {
    var joined := Join(parts, ",");
    forall c | c in joined
      ensures c != '-' && c != ';'
    {
      JoinChars(parts, ",", c);
    }
  }

  /** A comma-joined question view no longer splits into three parts. */
  lemma JoinedViewParam(parts: seq<string>, v: HashView)
    requires forall k :: 0 <= k < |parts| ==> ViewPart(parts[k])
    ensures var p := QuestionPrefix + Join(parts, ",");
      p != "" && p[0] != '#' && ';' !in p && ApplyParam(v, p) == v
  {
    var joined := Join(parts, ",");
    JoinedViewChars(parts);
    QuestionParamShape(joined);
    SinglePartIgnored(joined, v);
  }

  /** A question parameter whose value has no '-' is a single part, which the parser ignores. */
  lemma SinglePartIgnored(value: string, v: HashView)
    requires ViewPart(value)
    ensures ApplyParam(v, QuestionPrefix + value) == v
  {
    SplitNoSep(value, '-');
    PrefixRemoved(QuestionPrefix, value);
  }

  /**
   * Switching to round `n` (`setURLHash("round", n)`) reads back as round `n`
   * and no open question: a question view already in the hash is written
   * back comma-joined, which no longer splits into three parts.
   */
  lemma RoundHashRoundTrip(hash: string, n: int)
    ensures ParsedView(StoredHash(HashText("round", Some(IntToString(n)), ParsedView(hash))))
         == HashView(None, Some(Int(n)))
  {
    ParsedViewShape(hash);
    RoundHashOver(ParsedView(hash), n);
  }

  lemma RoundHashOver(view: HashView, n: int)
    requires view.questionView.Some? ==> forall k :: 0 <= k < |view.questionView.value| ==> ViewPart(view.questionView.value[k])
    ensures ParsedView(StoredHash(HashText("round", Some(IntToString(n)), view))) == HashView(None, Some(Int(n)))
  {
    if view.questionView.None? {
      assert HashText("round", Some(IntToString(n)), view) == "#" + RoundPrefix + RoundText(Int(n));
      RoundParamAlone(Int(n));
    } else {
      var first := QuestionPrefix + Join(view.questionView.value, ",");
      assert HashText("round", Some(IntToString(n)), view) == first + ";" + (RoundPrefix + RoundText(Int(n)));
      RoundAfterQuestionParam(view.questionView.value, Int(n));
    }
  }

  /** A hash holding only a round parameter reads back as that round. */
  lemma RoundParamAlone(r: JsNumber)
    ensures ParsedView(StoredHash("#" + RoundPrefix + RoundText(r))) == HashView(None, Some(r))
  {
    var roundParam := RoundPrefix + RoundText(r);
    assert "#" + RoundPrefix + RoundText(r) == "#" + roundParam;
    RoundParamShape(r);
    RoundParamApplies(r, HashView(None, None));
    HashOfParam(roundParam);
  }

  /** A round parameter written after a question parameter of one part decides the view alone. */
  lemma RoundAfterQuestionParam(parts: seq<string>, r: JsNumber)
    requires forall k :: 0 <= k < |parts| ==> ViewPart(parts[k])
    ensures var h := QuestionPrefix + Join(parts, ",") + ";" + (RoundPrefix + RoundText(r));
      ParsedView(StoredHash(h)) == HashView(None, Some(r))
  {
    var first := QuestionPrefix + Join(parts, ",");
    var roundParam := RoundPrefix + RoundText(r);
    RoundParamShape(r);
    RoundParamApplies(r, HashView(None, None));
    JoinedViewParam(parts, HashView(None, None));
    HashOfParams(first, roundParam);
  }

  /**
   * Opening question `r-c-q` (`setURLHash("question", "r-c-q")`) reads back
   * as the three parts, and the round already in the hash is kept.
   */
  lemma QuestionHashRoundTrip(hash: string, r: string, c: string, q: string)
    requires ViewPart(r) && ViewPart(c) && ViewPart(q)
    ensures ParsedView(StoredHash(HashText("question", Some(r + "-" + c + "-" + q), ParsedView(hash))))
         == HashView(Some([r, c, q]), ParsedView(hash).roundView)
  {
    QuestionHashOver(ParsedView(hash), r, c, q);
  }

  lemma QuestionTextWithRound(value: string, view: HashView)
    requires view.roundView.Some?
    ensures HashText("question", Some(value), view)
         == (QuestionPrefix + value) + ";" + (RoundPrefix + RoundText(view.roundView.value))
  {
    var h := "question" + "_" + value;
    assert h == QuestionPrefix + value;
  }

  lemma QuestionHashOver(view: HashView, r: string, c: string, q: string)
    requires ViewPart(r) && ViewPart(c) && ViewPart(q)
    ensures ParsedView(StoredHash(HashText("question", Some(r + "-" + c + "-" + q), view)))
         == HashView(Some([r, c, q]), view.roundView)
  {
    var value := r + "-" + c + "-" + q;
    var first := QuestionPrefix + value;
    QuestionParamShape(value);
    var shown := HashView(Some([r, c, q]), None);
    QuestionParamApplies(r, c, q, HashView(None, None));
    if view.roundView.None? {
      assert HashText("question", Some(value), view) == first;
      HashOfParam(first);
    } else {
      var roundParam := RoundPrefix + RoundText(view.roundView.value);
      RoundParamShape(view.roundView.value);
      RoundParamApplies(view.roundView.value, shown);
      QuestionTextWithRound(value, view);
      HashOfParams(first, roundParam);
    }
  }


  /** Closing the question view (`setURLHash("question", null)`) keeps only the round. */
  lemma QuestionHashCleared(hash: string)
    ensures ParsedView(StoredHash(HashText("question", None, ParsedView(hash))))
         == HashView(None, ParsedView(hash).roundView)
  {
    QuestionClearedOver(ParsedView(hash));
  }

  lemma QuestionClearedOver(view: HashView)
    ensures ParsedView(StoredHash(HashText("question", None, view))) == HashView(None, view.roundView)
  {
    if view.roundView.Some? {
      var roundParam := RoundPrefix + RoundText(view.roundView.value);
      RoundParamShape(view.roundView.value);
      RoundParamApplies(view.roundView.value, HashView(None, None));
      assert HashText("question", None, view) == "#" + roundParam;
      HashOfParam(roundParam);
    }
  }

  // ---------------------------------------------------------------------
  // Unique media names

  /** The `k`-th name `getUniqueFilename` tries: the base itself, then the base followed by `k`. */
  function Candidate(base: string, k: nat): string {
    if k == 0 then base else base + NatToString(k)
  }

  /** Which candidate a name is: the number written after the base, 0 for anything else. */
  function Rank(base: string, name: string): nat {
    if |name| <= |base| || !AllDigits(name[|base|..]) then 0 else DigitsValue(name[|base|..])
  }

  lemma RankOfCandidate(base: string, k: nat)
    ensures Rank(base, Candidate(base, k)) == k
  {
    if k > 0 {
      var name := Candidate(base, k);
      assert name[|base|..] == NatToString(k);
      DigitsValueOfNatToString(k);
    }
  }

  /**
   * `name` is what `getUniqueFilename(base)` returns while the media names
   * `taken` exist: the first candidate that is not taken.
   */
  predicate FirstFreeName(taken: set<string>, base: string, name: string) {
    && name !in taken
    && name == Candidate(base, Rank(base, name))
    && forall j :: 0 <= j < Rank(base, name) ==> Candidate(base, j) in taken
  }

  /**
   * The state of `getUniqueFilename`'s loop: the first `k` candidates are
   * taken, and `tried` (the names already passed over) are taken names of a
   * lower rank.
   */
  predicate Searched(taken: set<string>, base: string, k: nat, tried: set<string>) {
    && (forall j :: 0 <= j < k ==> Candidate(base, j) in taken)
    && tried <= taken
    && (forall x :: x in tried ==> Rank(base, x) < k)
  }

  /** Passing over the taken candidate `k` keeps the loop state and tries a new name. */
  lemma SearchStep(taken: set<string>, base: string, k: nat, tried: set<string>)
    requires Searched(taken, base, k, tried) && Candidate(base, k) in taken
    ensures Candidate(base, k) !in tried
    ensures Searched(taken, base, k + 1, tried + {Candidate(base, k)})
    ensures base + NatToString(k + 1) == Candidate(base, k + 1)
  {
    RankOfCandidate(base, k);
  }

  /** A free candidate after only taken ones is the first free name. */
  lemma CandidateFree(taken: set<string>, base: string, k: nat)
    requires Candidate(base, k) !in taken && forall j :: 0 <= j < k ==> Candidate(base, j) in taken
    ensures FirstFreeName(taken, base, Candidate(base, k))
  {
    RankOfCandidate(base, k);
  }

  /** At most one name is the first free candidate. */
  lemma FirstFreeNameUnique(taken: set<string>, base: string, a: string, b: string)
    requires FirstFreeName(taken, base, a) && FirstFreeName(taken, base, b)
    ensures a == b
  {
    var ra, rb := Rank(base, a), Rank(base, b);
    if ra < rb {
      assert false;
    } else if rb < ra {
      assert false;
    }
  }

  /** An unused base is its own first free name. */
  lemma FirstFreeNameOfUnused(taken: set<string>, base: string)
    requires base !in taken
    ensures FirstFreeName(taken, base, base)
  {
    RankOfCandidate(base, 0);
  }

  // ---------------------------------------------------------------------
  // The in-page copy of the pack

  /** A JSON value stored under a key of the pack data. */
  datatype Value = Text(s: string) | Num(n: int) | Flag(b: bool) | Texts(items: seq<string>)

  /** A question: its own keys (question, answer, value, id, deleted, ...) and its `extra` object. */
  datatype QuestionData = QuestionData(fields: map<string, Value>, extra: map<string, Value>)
  datatype CategoryData = CategoryData(fields: map<string, Value>, questions: seq<QuestionData>)
  datatype RoundData = RoundData(fields: map<string, Value>, categories: seq<CategoryData>)

  /** A file chosen in a file input: its name and MIME type. */
  datatype MediaFile = MediaFile(name: string, mimeType: string)

  /** What `syncQuestionData` reads from the open question view. */
  datatype QuestionForm = QuestionForm(
    question: string, answer: string, value: string, explanation: string,
    doBuzzTimer: bool, buzzTime: string, isMultipleChoice: bool,
    choices: seq<string>, tips: seq<string>,
    questionFile: Option<MediaFile>, answerFile: Option<MediaFile>,
    previewHeight: int, previewBorder: string)

  /** How a handler ended: normally, by an early `return`, or by throwing. */
  datatype Outcome = Done | Stopped | Thrown

  /** The media name a file is stored under: its name up to the first dot. */
  function BaseName(file: MediaFile): string {
    Split(file.name, '.')[0]
  }

  /** `s` written at index `i`: appended when `i` is the length, replaced otherwise. */
  function Place<T>(s: seq<T>, i: nat, x: T): (r: seq<T>)
    requires i <= |s|
    ensures |r| == if i == |s| then |s| + 1 else |s|
    ensures r[i] == x
    ensures forall j :: 0 <= j < |s| && j != i ==> r[j] == s[j]
  {
    if i == |s| then s + [x] else s[i := x]
  }

  /** `questionData` holds an entry for category `c` of round `r`. */
  predicate HasCategory(rs: seq<RoundData>, r: nat, c: nat) {
    r < |rs| && c < |rs[r].categories|
  }

  /** `questionData` holds an entry for question `q` of category `c` of round `r`. */
  predicate HasQuestion(rs: seq<RoundData>, r: nat, c: nat, q: nat) {
    HasCategory(rs, r, c) && q < |rs[r].categories[c].questions|
  }

  function SetCategory(rs: seq<RoundData>, r: nat, c: nat, cat: CategoryData): seq<RoundData>
    requires r < |rs| && c < |rs[r].categories|
  {
    rs[r := rs[r].(categories := rs[r].categories[c := cat])]
  }

  function SetQuestion(rs: seq<RoundData>, r: nat, c: nat, q: nat, x: QuestionData): seq<RoundData>
    requires r < |rs| && c < |rs[r].categories| && q < |rs[r].categories[c].questions|
  {
    var cat := rs[r].categories[c];
    SetCategory(rs, r, c, cat.(questions := cat.questions[q := x]))
  }

  /** The number of questions in each category of each round, deleted ones included. */
  function Shape(rs: seq<RoundData>): seq<seq<nat>> {
    seq(|rs|, i requires 0 <= i < |rs| =>
      seq(|rs[i].categories|, j requires 0 <= j < |rs[i].categories| => |rs[i].categories[j].questions|))
  }

  predicate IsNonEmpty(s: string) {
    s != ""
  }

  /** The category's `buzz_time`: the countdown text when the timer box is checked, 0 otherwise. */
  function BuzzTimeValue(form: QuestionForm): Value {
    if form.doBuzzTimer then Text(form.buzzTime) else Num(0)
  }

  function WithBuzzTime(cat: CategoryData, form: QuestionForm): CategoryData {
    cat.(fields := cat.fields["buzz_time" := BuzzTimeValue(form)])
  }

  /** `extra` after the choices, the explanation and the non-empty tips are written. */
  function EditedExtra(extra: map<string, Value>, form: QuestionForm): map<string, Value> {
    var withChoices := if form.isMultipleChoice then extra["choices" := Texts(form.choices)] else extra;
    var withExplanation := if form.explanation != "" then withChoices["explanation" := Text(form.explanation)] else withChoices;
    var tipData := Filter(form.tips, IsNonEmpty);
    if |tipData| > 0 then withExplanation["tips" := Texts(tipData)] else withExplanation
  }

  /** The question after the text inputs are read: the stored one edited, or a new one with an empty `extra`. */
  function EditedQuestion(prev: Option<QuestionData>, form: QuestionForm): QuestionData {
    match prev
    case Some(q) =>
      QuestionData(q.fields["question" := Text(form.question)]["answer" := Text(form.answer)]["value" := Text(form.value)],
                   EditedExtra(q.extra, form))
    case None =>
      QuestionData(map["question" := Text(form.question), "answer" := Text(form.answer), "value" := Text(form.value)],
                   EditedExtra(map[], form))
  }

  /** The key a question file is stored under. */
  function QuestionMediaKey(mimeType: string): string {
    if mimeType in ImageFileTypes then "question_image" else "video"
  }

  /** The preview's height, and its border colour when it has one. */
  function WithPreview(extra: map<string, Value>, form: QuestionForm): map<string, Value> {
    var withHeight := extra["height" := Num(form.previewHeight)];
    if form.previewBorder != "" then withHeight["border" := Text(form.previewBorder)] else withHeight
  }

  /** The question after its image or video is recorded under the name `name`. */
  function WithQuestionMedia(q: QuestionData, form: QuestionForm, name: string): QuestionData {
    match form.questionFile
    case Some(file) => q.(extra := WithPreview(q.extra[QuestionMediaKey(file.mimeType) := Text(name)], form))
    case None =>
      if "question_image" in q.extra || "video" in q.extra then q.(extra := WithPreview(q.extra, form)) else q
  }

  predicate StoresAnswerImage(form: QuestionForm) {
    form.answerFile.Some? && form.answerFile.value.mimeType in ImageFileTypes
  }

  function WithAnswerMedia(q: QuestionData, form: QuestionForm, name: string): QuestionData {
    if StoresAnswerImage(form) then q.(extra := q.extra["answer_image" := Text(name)]) else q
  }

  function AddQuestionMedia(media: map<string, Option<MediaFile>>, form: QuestionForm, name: string): map<string, Option<MediaFile>> {
    if form.questionFile.Some? then media[name := form.questionFile] else media
  }

  function AddAnswerMedia(media: map<string, Option<MediaFile>>, form: QuestionForm, name: string): map<string, Option<MediaFile>> {
    if StoresAnswerImage(form) then media[name := form.answerFile] else media
  }

  /** The question `syncQuestionData` stores when it runs to the end. */
  function SyncedQuestion(prev: Option<QuestionData>, form: QuestionForm, questionName: string, answerName: string): QuestionData {
    WithAnswerMedia(WithQuestionMedia(EditedQuestion(prev, form), form, questionName), form, answerName)
  }

  /**
   * The text inputs always land in the question, an existing question keeps
   * its other keys, and the keys of `extra` never shrink: a choice list
   * survives unchecking the multiple-choice box.
   */
  lemma SyncedKeepsKeys(prev: Option<QuestionData>, form: QuestionForm, questionName: string, answerName: string)
    ensures var q := SyncedQuestion(prev, form, questionName, answerName);
      && q.fields["question"] == Text(form.question)
      && q.fields["answer"] == Text(form.answer)
      && q.fields["value"] == Text(form.value)
      && (prev.Some? ==> prev.value.fields.Keys <= q.fields.Keys && prev.value.extra.Keys <= q.extra.Keys)
      && (prev.Some? ==> forall k :: k in prev.value.fields && k !in {"question", "answer", "value"} ==>
            q.fields[k] == prev.value.fields[k])
  {
  }

  /** Recording media touches only the media keys of `extra`. */
  lemma MediaKeepsTips(q: QuestionData, form: QuestionForm, questionName: string, answerName: string)
    ensures var r := WithAnswerMedia(WithQuestionMedia(q, form, questionName), form, answerName);
      ("tips" in r.extra <==> "tips" in q.extra) && ("tips" in q.extra ==> r.extra["tips"] == q.extra["tips"])
  {
  }

  /**
   * The stored tips are exactly the non-empty tip inputs, in order, when
   * there is one; with none, the tips already stored are left as they were.
   */
  lemma SyncedTips(prev: Option<QuestionData>, form: QuestionForm, questionName: string, answerName: string)
    ensures var q := SyncedQuestion(prev, form, questionName, answerName);
      var before := if prev.Some? then prev.value.extra else map[];
      && ((exists i :: 0 <= i < |form.tips| && form.tips[i] != "") ==>
            "tips" in q.extra && q.extra["tips"] == Texts(Filter(form.tips, IsNonEmpty))
            && forall k :: 0 <= k < |Filter(form.tips, IsNonEmpty)| ==> Filter(form.tips, IsNonEmpty)[k] != "")
      && ((forall i :: 0 <= i < |form.tips| ==> form.tips[i] == "") ==>
            ("tips" in q.extra <==> "tips" in before) && ("tips" in before ==> q.extra["tips"] == before["tips"]))
  {
    var edited := EditedQuestion(prev, form);
    MediaKeepsTips(edited, form, questionName, answerName);
    var tipData := Filter(form.tips, IsNonEmpty);
    if exists i :: 0 <= i < |form.tips| && form.tips[i] != "" {
      var i :| 0 <= i < |form.tips| && form.tips[i] != "";
      FilterMembers(form.tips, IsNonEmpty);
      assert form.tips[i] in tipData;
      assert edited.extra["tips"] == Texts(tipData);
    } else {
      FilterAllFail(form.tips, IsNonEmpty);
    }
  }

  /** A category's background image, when an image file was chosen. */
  predicate StoresBackground(bgFile: Option<MediaFile>) {
    bgFile.Some? && bgFile.value.mimeType in ImageFileTypes
  }

  // ---------------------------------------------------------------------
  // The editor page's state and handlers

  /**
   * The page globals: `questionData["rounds"]`, `questionMedia` (media name
   * to the file waiting for upload, `null` once dropped) and
   * `window.location.hash`.
   */
  class Editor {
    var rounds: seq<RoundData>
    var media: map<string, Option<MediaFile>>
    var hash: string

    /** The page as loaded: the pack's rounds and the URL's hash, no pending media. */
    constructor (rounds: seq<RoundData>, hash: string)
      ensures this.rounds == rounds && media == map[] && this.hash == hash
    {
      this.rounds := rounds;
      media := map[];
      this.hash := hash;
    }

    /** `parseURLHash`: the parameters read left to right. */
    method ParseURLHash() returns (view: HashView)
      ensures view == ParsedView(hash)
    {
      var questionView: Option<seq<string>> := None;
      var roundView: Option<JsNumber> := None;
      if hash != "" {
        var params := Split(ReplaceFirst(hash, "#", ""), ';');
        var i := 0;
        while i < |params|
          invariant i <= |params|
          invariant HashView(questionView, roundView) == ParamsView(params[..i])
        {
          var param := params[i];
          if StartsWith(param, QuestionPrefix) {
            var split := Split(ReplaceFirst(param, QuestionPrefix, ""), '-');
            if |split| == 3 {
              questionView := Some(split);
            }
          } else if StartsWith(param, RoundPrefix) {
            roundView := Some(ParseJsInt(ReplaceFirst(param, RoundPrefix, "")));
          }
          assert params[..i + 1][..i] == params[..i];
          i := i + 1;
        }
        assert params[..|params|] == params;
      }
      view := HashView(questionView, roundView);
    }

    /** `setURLHash(key, value)`: rebuilds the hash from the parsed view and stores it. */
    method SetURLHash(key: string, value: Option<string>)
      modifies this
      ensures rounds == old(rounds) && media == old(media)
      ensures hash == StoredHash(HashText(key, value, ParsedView(old(hash))))
    {
      var view := ParseURLHash();
      var h := "#";
      if key == "question" {
        if value.Some? {
          h := key + "_" + value.value;
        }
        if view.roundView.Some? {
          if value.Some? {
            h := h + ";";
          }
          h := h + RoundPrefix + RoundText(view.roundView.value);
        }
      } else if key == "round" {
        if view.questionView.Some? {
          h := QuestionPrefix + Join(view.questionView.value, ",");
          if value.Some? {
            h := h + ";";
          }
        }
        if value.Some? {
          h := h + key + "_" + value.value;
        }
      }
      hash := StoredHash(h);
    }

    /** The hash part of `showRoundView(round)`: the round is recorded and any open question is lost. */
    method ShowRoundView(round: nat)
      modifies this
      ensures rounds == old(rounds) && media == old(media)
      ensures ParsedView(hash) == HashView(None, Some(Int(round)))
    {
      SetURLHash("round", Some(IntToString(round)));
      RoundHashRoundTrip(old(hash), round);
    }

    /**
     * The hash part of `showQuestionView`: opening records the question and
     * keeps the round; closing keeps only the round. Nothing happens when
     * the question's view is not on the page (`present` is false).
     */
    method ShowQuestionView(roundId: nat, categoryId: nat, questionId: nat, show: bool, present: bool)
      modifies this
      ensures rounds == old(rounds) && media == old(media)
      ensures !present ==> hash == old(hash)
      ensures present && show ==> ParsedView(hash) == HashView(
        Some([IntToString(roundId), IntToString(categoryId), IntToString(questionId)]), ParsedView(old(hash)).roundView)
      ensures present && !show ==> ParsedView(hash) == HashView(None, ParsedView(old(hash)).roundView)
    {
      if !present {
        return;
      }
      if show {
        var r, c, q := IntToString(roundId), IntToString(categoryId), IntToString(questionId);
        SetURLHash("question", Some(r + "-" + c + "-" + q));
        IntToStringNoDash(roundId);
        IntToStringNoDash(categoryId);
        IntToStringNoDash(questionId);
        QuestionHashRoundTrip(old(hash), r, c, q);
      } else {
        SetURLHash("question", None);
        QuestionHashCleared(old(hash));
      }
    }

    /** `getNextId(round, category)`: how many entries the level holds, deleted ones included. */
    function GetNextId(round: Option<nat>, category: Option<nat>): nat
      reads this
      requires round.Some? ==> round.value < |rounds|
      requires round.Some? && category.Some? ==> category.value < |rounds[round.value].categories|
    {
      if round.None? then |rounds|
      else if category.None? then |rounds[round.value].categories|
      else |rounds[round.value].categories[category.value].questions|
    }

    /** `getUniqueFilename(filename)`: tries `filename`, `filename1`, `filename2`, ... until one is unused. */
    method GetUniqueFilename(filename: string) returns (uniqueName: string)
      ensures FirstFreeName(media.Keys, filename, uniqueName)
    {
      uniqueName := filename;
      var num: nat := 1;
      ghost var tried: set<string> := {};
      while uniqueName in media
        invariant num >= 1 && uniqueName == Candidate(filename, num - 1)
        invariant Searched(media.Keys, filename, num - 1, tried)
        decreases media.Keys - tried
      {
        SearchStep(media.Keys, filename, num - 1, tried);
        tried := tried + {uniqueName};
        uniqueName := filename + NatToString(num);
        num := num + 1;
      }
      CandidateFree(media.Keys, filename, num - 1);
    }


    /**
     * `syncQuestionData(round, category, question)`: the open view's inputs
     * are written into question `question` of the category, which is
     * appended when it is new. The category's buzz time is written first.
     * A question file of an unaccepted type stops the handler: an existing
     * question keeps the edits made up to that point, a new one is dropped.
     * Chosen files are recorded under fresh media names.
     */
    method SyncQuestionData(round: nat, category: nat, question: nat, form: QuestionForm)
      returns (outcome: Outcome, ghost questionName: string, ghost answerName: string)
      requires round < |rounds| && category < |rounds[round].categories|
      requires question <= |rounds[round].categories[category].questions|
      modifies this
      ensures hash == old(hash)
      ensures outcome == Stopped <==> form.questionFile.Some? && !IsMediaValidType(form.questionFile.value.mimeType)
      ensures outcome != Thrown
      ensures var cat := old(rounds)[round].categories[category];
        var prev := if question < |cat.questions| then Some(cat.questions[question]) else None;
        rounds == SetCategory(old(rounds), round, category, WithBuzzTime(cat, form).(questions :=
          if outcome == Stopped then
            (if prev.Some? then cat.questions[question := EditedQuestion(prev, form)] else cat.questions)
          else Place(cat.questions, question, SyncedQuestion(prev, form, questionName, answerName))))
      ensures outcome == Stopped ==> media == old(media)
      ensures outcome == Done ==>
        media == AddAnswerMedia(AddQuestionMedia(old(media), form, questionName), form, answerName)
      ensures outcome == Done && form.questionFile.Some? ==>
        FirstFreeName(old(media).Keys, BaseName(form.questionFile.value), questionName)
      ensures outcome == Done && StoresAnswerImage(form) ==>
        FirstFreeName(AddQuestionMedia(old(media), form, questionName).Keys, BaseName(form.answerFile.value), answerName)
      ensures forall k :: k in old(media) ==> k in media && media[k] == old(media)[k]
    {
      questionName, answerName := "", "";
      ghost var before := rounds;
      var cat := WithBuzzTime(rounds[round].categories[category], form);
      rounds := SetCategory(rounds, round, category, cat);
      assert cat.(questions := cat.questions) == cat;
      var questions := cat.questions;
      var prev := if question < |questions| then Some(questions[question]) else None;
      var data := EditQuestion(prev, form);

      if form.questionFile.Some? && !IsMediaValidType(form.questionFile.value.mimeType) {
        // an existing question was edited in place before the early return
        if question < |questions| {
          rounds := SetCategory(rounds, round, category, cat.(questions := questions[question := data]));
          SetCategoryTwice(before, round, category, cat, cat.(questions := questions[question := data]));
        }
        return Stopped, questionName, answerName;
      }
      var name;
      data, name := RecordQuestionMedia(data, form);
      questionName := name;
      data, name := RecordAnswerMedia(data, form);
      answerName := name;
      rounds := SetCategory(rounds, round, category, cat.(questions := Place(questions, question, data)));
      SetCategoryTwice(before, round, category, cat, cat.(questions := Place(questions, question, data)));
      outcome := Done;
    }

    /** The media part of `syncQuestionData` for the question file, or the existing preview without one. */
    method RecordQuestionMedia(q: QuestionData, form: QuestionForm) returns (data: QuestionData, name: string)
      requires form.questionFile.Some? ==> IsMediaValidType(form.questionFile.value.mimeType)
      modifies this
      ensures rounds == old(rounds) && hash == old(hash)
      ensures data == WithQuestionMedia(q, form, name)
      ensures media == AddQuestionMedia(old(media), form, name)
      ensures form.questionFile.Some? ==> FirstFreeName(old(media).Keys, BaseName(form.questionFile.value), name)
    {
      data, name := q, "";
      if form.questionFile.Some? {
        var file := form.questionFile.value;
        var key := if file.mimeType in ImageFileTypes then "question_image" else "video";
        name := GetUniqueFilename(BaseName(file));
        data := data.(extra := data.extra[key := Text(name)]);
        media := media[name := Some(file)];
        data := data.(extra := data.extra["height" := Num(form.previewHeight)]);
        if form.previewBorder != "" {
          data := data.(extra := data.extra["border" := Text(form.previewBorder)]);
        }
      } else if "question_image" in data.extra || "video" in data.extra {
        data := data.(extra := data.extra["height" := Num(form.previewHeight)]);
        if form.previewBorder != "" {
          data := data.(extra := data.extra["border" := Text(form.previewBorder)]);
        }
      }
    }

    /** The answer-image part of `syncQuestionData`: only image files are recorded. */
    method RecordAnswerMedia(q: QuestionData, form: QuestionForm) returns (data: QuestionData, name: string)
      modifies this
      ensures rounds == old(rounds) && hash == old(hash)
      ensures data == WithAnswerMedia(q, form, name)
      ensures media == AddAnswerMedia(old(media), form, name)
      ensures StoresAnswerImage(form) ==> FirstFreeName(old(media).Keys, BaseName(form.answerFile.value), name)
    {
      data, name := q, "";
      if form.answerFile.Some? {
        var file := form.answerFile.value;
        if file.mimeType in ImageFileTypes {
          name := GetUniqueFilename(BaseName(file));
          data := data.(extra := data.extra["answer_image" := Text(name)]);
          media := media[name := Some(file)];
        }
      }
    }

    /**
     * `syncCategoryData(roundId, categoryId)`: an existing category gets the
     * name input and, for an image file, a background image under a fresh
     * media name. For a new category the handler reads `defaultBuzzTime`
     * before its `let` declaration and throws, so nothing is stored.
     */
    method SyncCategoryData(roundId: nat, categoryId: nat, name: string, bgFile: Option<MediaFile>)
      returns (outcome: Outcome, ghost bgName: string)
      requires roundId < |rounds|
      modifies this
      ensures hash == old(hash)
      ensures outcome != Stopped
      ensures outcome == Thrown <==> categoryId >= |old(rounds)[roundId].categories|
      ensures outcome == Thrown ==> rounds == old(rounds) && media == old(media)
      ensures outcome == Done ==>
        var cat := old(rounds)[roundId].categories[categoryId];
        var named := cat.fields["name" := Text(name)];
        && rounds == SetCategory(old(rounds), roundId, categoryId,
             cat.(fields := if StoresBackground(bgFile) then named["bg_image" := Text(bgName)] else named))
        && media == (if StoresBackground(bgFile) then old(media)[bgName := bgFile] else old(media))
        && (StoresBackground(bgFile) ==> FirstFreeName(old(media).Keys, BaseName(bgFile.value), bgName))
    {
      bgName := "";
      var categories := rounds[roundId].categories;
      if categoryId >= |categories| {
        // `"buzz_time": defaultBuzzTime` is evaluated in its temporal dead zone
        return Thrown, bgName;
      }
      var data := categories[categoryId];
      data := data.(fields := data.fields["name" := Text(name)]);
      if bgFile.Some? && bgFile.value.mimeType in ImageFileTypes {
        var unique := GetUniqueFilename(BaseName(bgFile.value));
        bgName := unique;
        data := data.(fields := data.fields["bg_image" := Text(unique)]);
        media := media[unique := bgFile];
      }
      rounds := SetCategory(rounds, roundId, categoryId, data);
      outcome := Done;
    }

    /** `syncRoundData(roundId)`: appends a new round without categories, or renames and renumbers an existing one. */
    method SyncRoundData(roundId: nat, name: string)
      requires roundId <= |rounds|
      modifies this
      ensures hash == old(hash) && media == old(media)
      ensures roundId == |old(rounds)| ==>
        rounds == old(rounds) + [RoundData(map["name" := Text(name), "round" := Num(roundId)], [])]
      ensures roundId < |old(rounds)| ==>
        rounds == old(rounds)[roundId := old(rounds)[roundId].(fields :=
          old(rounds)[roundId].fields["name" := Text(name)]["round" := Num(roundId)])]
    {
      if |rounds| == roundId {
        rounds := rounds + [RoundData(map["name" := Text(name), "round" := Num(roundId)], [])];
      } else {
        var data := rounds[roundId];
        rounds := rounds[roundId := data.(fields := data.fields["name" := Text(name)]["round" := Num(roundId)])];
      }
    }

    /**
     * The data part of `addRound()`: the next round id, a round named
     * "Round <roundNum + 1>" appended under it, and the hash switched to it.
     * `roundNum` is one less than the number of round wrappers on the page.
     */
    method AddRound(roundNum: int) returns (round: nat)
      modifies this
      ensures round == |old(rounds)|
      ensures rounds == old(rounds) + [RoundData(map["name" := Text("Round " + IntToString(roundNum + 1)), "round" := Num(round)], [])]
      ensures media == old(media)
      ensures ParsedView(hash) == HashView(None, Some(Int(round)))
    {
      round := GetNextId(None, None);
      if round == 0 {
        rounds := [];
      }
      SyncRoundData(round, "Round " + IntToString(roundNum + 1));
      ShowRoundView(round);
    }

    /**
     * The data part of `addCategory(roundId)`: with no category on the page
     * the round's categories are reset, and the new category's sync always
     * throws, so no category is ever added. `categoryNum` is the number of
     * category wrappers on the page.
     */
    method AddCategory(roundId: nat, categoryNum: nat) returns (outcome: Outcome)
      requires roundId < |rounds|
      modifies this
      ensures outcome == Thrown
      ensures rounds == if categoryNum == 0 then old(rounds)[roundId := old(rounds)[roundId].(categories := [])] else old(rounds)
      ensures media == old(media) && hash == old(hash)
    {
      var category := GetNextId(Some(roundId), None);
      if categoryNum == 0 {
        rounds := rounds[roundId := rounds[roundId].(categories := [])];
      }
      ghost var unused: string;
      outcome, unused := SyncCategoryData(roundId, category, "", None);
    }

    /**
     * The data part of `deleteQuestion`: when confirmed and the question is
     * on the page, its pending media are dropped and it is flagged deleted.
     * The handler looks for the media names among the question's own keys
     * (`DroppedMediaAsWritten`), not in its `extra` where
     * `syncQuestionData` stores them. A question on the page without an
     * entry in `questionData` makes the lookup throw before anything changes.
     */
    method DeleteQuestion(confirmed: bool, present: bool, roundId: nat, categoryId: nat, questionId: nat)
      returns (outcome: Outcome)
      modifies this
      ensures hash == old(hash)
      ensures outcome == Stopped <==> !confirmed
      ensures outcome == Thrown <==> confirmed && present && !HasQuestion(old(rounds), roundId, categoryId, questionId)
      ensures !(outcome == Done && present) ==> rounds == old(rounds) && media == old(media)
      ensures outcome == Done && present ==>
        var q := old(rounds)[roundId].categories[categoryId].questions[questionId];
        && rounds == SetQuestion(old(rounds), roundId, categoryId, questionId, q.(fields := q.fields["deleted" := Flag(true)]))
        && media == DroppedMediaAsWritten(q, old(media))
      ensures Shape(rounds) == Shape(old(rounds))
    {
      if !confirmed {
        return Stopped;
      }
      outcome := Done;
      if !present {
        return;
      }
      if !HasQuestion(rounds, roundId, categoryId, questionId) {
        return Thrown;
      }
      var q := rounds[roundId].categories[categoryId].questions[questionId];
      media := DroppedMediaAsWritten(q, media);
      ghost var before := rounds;
      rounds := SetQuestion(rounds, roundId, categoryId, questionId, q.(fields := q.fields["deleted" := Flag(true)]));
      SetQuestionKeepsShape(before, roundId, categoryId, questionId, q.(fields := q.fields["deleted" := Flag(true)]));
    }

    /**
     * The data part of `deleteCategory`: when confirmed and the category is on
     * the page, its background image (if it has one) is set to `null` in the
     * media and it is flagged deleted. A category on the page without an
     * entry in `questionData` makes `Object.hasOwn` throw before anything
     * changes. When no category is left in the round the handler refers to
     * an undeclared `roundWrapper` and throws after the deletion;
     * `remaining` is the number of categories left on the page.
     */
    method DeleteCategory(confirmed: bool, present: bool, roundId: nat, categoryId: nat, remaining: nat)
      returns (outcome: Outcome)
      modifies this
      ensures hash == old(hash)
      ensures outcome == Stopped <==> !confirmed
      ensures outcome == Thrown <==>
        confirmed && present && (!HasCategory(old(rounds), roundId, categoryId) || remaining == 0)
      ensures !(confirmed && present && HasCategory(old(rounds), roundId, categoryId)) ==>
        rounds == old(rounds) && media == old(media)
      ensures confirmed && present && HasCategory(old(rounds), roundId, categoryId) ==>
        var cat := old(rounds)[roundId].categories[categoryId];
        && rounds == SetCategory(old(rounds), roundId, categoryId, cat.(fields := cat.fields["deleted" := Flag(true)]))
        && media == (if "bg_image" in cat.fields && cat.fields["bg_image"].Text?
                     then old(media)[cat.fields["bg_image"].s := None] else old(media))
      ensures Shape(rounds) == Shape(old(rounds))
    {
      if !confirmed {
        return Stopped;
      }
      outcome := Done;
      if !present {
        return;
      }
      if !HasCategory(rounds, roundId, categoryId) {
        return Thrown;
      }
      var cat := rounds[roundId].categories[categoryId];
      if "bg_image" in cat.fields && cat.fields["bg_image"].Text? {
        media := media[cat.fields["bg_image"].s := None];
      }
      ghost var before := rounds;
      rounds := SetCategory(rounds, roundId, categoryId, cat.(fields := cat.fields["deleted" := Flag(true)]));
      SetCategoryKeepsShape(before, roundId, categoryId, cat.(fields := cat.fields["deleted" := Flag(true)]));
      if remaining == 0 {
        outcome := Thrown;
      }
    }

    /**
     * The data part of `deleteRound`: when confirmed, nothing happens while
     * the pack holds a single round (deleted rounds included); otherwise a
     * round on the page (`present`: its select button and wrapper) is
     * flagged deleted. When it was the round shown (`selected`), the round
     * view switches first: `selectElem.length` is undefined, so the handler
     * always asks for the wrapper at the deleted button's own index
     * `elemIndex` among the wrappers left (`wrapperIds`, their round ids in
     * page order), and `getElementId` throws when there is none, which is
     * when the last round was deleted. A round without an entry in
     * `questionData` throws when it is flagged.
     */
    method DeleteRound(confirmed: bool, present: bool, round: nat, selected: bool, elemIndex: nat, wrapperIds: seq<nat>)
      returns (outcome: Outcome)
      modifies this
      ensures media == old(media)
      ensures outcome == Stopped <==> !confirmed
      ensures outcome == Thrown <==>
        confirmed && |old(rounds)| != 1 && present && ((selected && elemIndex >= |wrapperIds|) || round >= |old(rounds)|)
      ensures confirmed && |old(rounds)| != 1 && present && selected && elemIndex < |wrapperIds| ==>
        ParsedView(hash) == HashView(None, Some(Int(wrapperIds[elemIndex])))
      ensures !(confirmed && |old(rounds)| != 1 && present && selected && elemIndex < |wrapperIds|) ==> hash == old(hash)
      ensures confirmed && |old(rounds)| != 1 && present && outcome == Done ==>
        rounds == old(rounds)[round := old(rounds)[round].(fields := old(rounds)[round].fields["deleted" := Flag(true)])]
      ensures !(confirmed && |old(rounds)| != 1 && present && outcome == Done) ==> rounds == old(rounds)
      ensures Shape(rounds) == Shape(old(rounds))
    {
      if !confirmed {
        return Stopped;
      }
      outcome := Done;
      if |rounds| == 1 || !present {
        return;
      }
      if selected {
        if elemIndex >= |wrapperIds| {
          return Thrown;
        }
        ShowRoundView(wrapperIds[elemIndex]);
      }
      if round >= |rounds| {
        return Thrown;
      }
      ghost var before := rounds;
      rounds := rounds[round := rounds[round].(fields := rounds[round].fields["deleted" := Flag(true)])];
      assert Shape(rounds) == Shape(before) by {
        assert forall i :: 0 <= i < |rounds| ==> rounds[i].categories == before[i].categories;
      }
    }
  }

  /** The text part of `syncQuestionData`: the inputs written into the stored or a new question. */
  method EditQuestion(prev: Option<QuestionData>, form: QuestionForm) returns (data: QuestionData)
    ensures data == EditedQuestion(prev, form)
  {
    if prev.Some? {
      data := prev.value;
      data := data.(fields := data.fields["question" := Text(form.question)]["answer" := Text(form.answer)]["value" := Text(form.value)]);
    } else {
      data := QuestionData(map["question" := Text(form.question), "answer" := Text(form.answer), "value" := Text(form.value)], map[]);
    }
    if form.isMultipleChoice {
      data := data.(extra := data.extra["choices" := Texts(form.choices)]);
    }
    if form.explanation != "" {
      data := data.(extra := data.extra["explanation" := Text(form.explanation)]);
    }
    var tipData := Filter(form.tips, IsNonEmpty);
    if |tipData| > 0 {
      data := data.(extra := data.extra["tips" := Texts(tipData)]);
    }
  }

  /** `questionMedia` after a deleted question's files are set to `null`, given where its media names are kept. */
  function DroppedMedia(holder: map<string, Value>, media: map<string, Option<MediaFile>>): (r: map<string, Option<MediaFile>>)
    ensures r.Keys == media.Keys
  {
    var afterQuestion :=
      if HoldsMedia(holder, "question_image", media) then media[holder["question_image"].s := None]
      else if HoldsMedia(holder, "video", media) then media[holder["video"].s := None]
      else media;
    if HoldsMedia(holder, "answer_image", afterQuestion) then afterQuestion[holder["answer_image"].s := None]
    else afterQuestion
  }

  /**
   * `deleteQuestion` as written: it looks for `question_image`, `video` and
   * `answer_image` among the question's own keys.
   */
  function DroppedMediaAsWritten(q: QuestionData, media: map<string, Option<MediaFile>>): (r: map<string, Option<MediaFile>>)
    ensures r.Keys == media.Keys
    ensures forall k :: k in media && r[k] != media[k] ==> r[k].None?
  {
    DroppedMedia(q.fields, media)
  }

  /** The intended lookup: the media names a question holds are in its `extra`. */
  function DroppedQuestionMedia(q: QuestionData, media: map<string, Option<MediaFile>>): (r: map<string, Option<MediaFile>>)
    ensures r.Keys == media.Keys
    ensures HoldsMedia(q.extra, "question_image", media) ==> r[q.extra["question_image"].s].None?
    ensures !HoldsMedia(q.extra, "question_image", media) && HoldsMedia(q.extra, "video", media) ==>
      r[q.extra["video"].s].None?
    ensures HoldsMedia(q.extra, "answer_image", media) ==> r[q.extra["answer_image"].s].None?
    ensures forall k :: k in media && r[k] != media[k] ==>
      r[k].None? && exists key :: key in {"question_image", "video", "answer_image"} && HoldsMedia(q.extra, key, media) && q.extra[key].s == k
  {
    DroppedMedia(q.extra, media)
  }

  /** A question `syncQuestionData` creates holds only the three text keys; its media names are in `extra`. */
  lemma NewQuestionKeys(form: QuestionForm, questionName: string, answerName: string)
    ensures var q := SyncedQuestion(None, form, questionName, answerName);
      && q.fields.Keys == {"question", "answer", "value"}
      && (form.questionFile.Some? ==> q.extra[QuestionMediaKey(form.questionFile.value.mimeType)] == Text(questionName))
  {
  }

  /**
   * The lookup as written never finds the media of a question that
   * `syncQuestionData` created: its question file stays queued for upload
   * after the question is deleted.
   */
  lemma DeletedQuestionKeepsUpload(form: QuestionForm, questionName: string, answerName: string,
                                   media: map<string, Option<MediaFile>>)
    requires form.questionFile.Some? && questionName in media && media[questionName].Some?
    ensures var q := SyncedQuestion(None, form, questionName, answerName);
      DroppedMediaAsWritten(q, media)[questionName] == media[questionName]
  {
    NewQuestionKeys(form, questionName, answerName);
  }

  /** The intended lookup drops that file. */
  lemma DeletedQuestionDropsUpload(form: QuestionForm, questionName: string, answerName: string,
                                   media: map<string, Option<MediaFile>>)
    requires form.questionFile.Some? && questionName in media
    requires StoresAnswerImage(form) ==> answerName != questionName
    ensures var q := SyncedQuestion(None, form, questionName, answerName);
      DroppedQuestionMedia(q, media)[questionName].None?
  {
    NewQuestionKeys(form, questionName, answerName);
    var q := SyncedQuestion(None, form, questionName, answerName);
    var key := QuestionMediaKey(form.questionFile.value.mimeType);
    assert HoldsMedia(q.extra, key, media);
  }

  /** `holder` names, under `key`, a media entry that exists. */
  predicate HoldsMedia(holder: map<string, Value>, key: string, media: map<string, Option<MediaFile>>) {
    key in holder && holder[key].Text? && holder[key].s in media
  }

  lemma SetCategoryTwice(rs: seq<RoundData>, r: nat, c: nat, first: CategoryData, second: CategoryData)
    requires r < |rs| && c < |rs[r].categories|
    ensures SetCategory(SetCategory(rs, r, c, first), r, c, second) == SetCategory(rs, r, c, second)
  {
    var mid := SetCategory(rs, r, c, first);
    assert mid[r].categories[c := second] == rs[r].categories[c := second];
    assert mid[r].(categories := mid[r].categories[c := second]) == rs[r].(categories := rs[r].categories[c := second]);
  }

  lemma SetQuestionKeepsShape(rs: seq<RoundData>, r: nat, c: nat, q: nat, x: QuestionData)
    requires r < |rs| && c < |rs[r].categories| && q < |rs[r].categories[c].questions|
    ensures Shape(SetQuestion(rs, r, c, q, x)) == Shape(rs)
  {
    var cat := rs[r].categories[c];
    SetCategoryKeepsShape(rs, r, c, cat.(questions := cat.questions[q := x]));
  }

  lemma SetCategoryKeepsShape(rs: seq<RoundData>, r: nat, c: nat, cat: CategoryData)
    requires r < |rs| && c < |rs[r].categories| && |cat.questions| == |rs[r].categories[c].questions|
    ensures Shape(SetCategory(rs, r, c, cat)) == Shape(rs)
  {
    var after := SetCategory(rs, r, c, cat);
    forall i | 0 <= i < |rs|
      ensures Shape(after)[i] == Shape(rs)[i]
    {
      if i == r {
        assert |Shape(after)[i]| == |Shape(rs)[i]|;
        forall j | 0 <= j < |rs[r].categories|
          ensures Shape(after)[i][j] == Shape(rs)[i][j]
        {
        }
      }
    }
  }

  lemma IntToStringNoDash(n: nat)
    ensures ViewPart(IntToString(n))
  {
    assert AllDigits(IntToString(n));
  }

  // ---------------------------------------------------------------------
  // Default question value and question order

  /** How many of `values` sit on the ladder: value `i` (from 0) equal to `base * (i + 1)`. */
  function Rungs(values: seq<Option<int>>, base: int): (k: nat)
    ensures k <= |values|
    decreases |values|
  {
    if |values| == 0 then 0
    else Rungs(values[..|values| - 1], base) + (if values[|values| - 1] == Some(base * |values|) then 1 else 0)
  }

  /**
   * The default value `createQuestionView` puts in a new question: the base
   * `100 * (roundIndex + 1)`, raised by the base for every existing question
   * whose value sits on its ladder rung. `values` are the existing
   * questions' value texts as numbers (None when a text is not an integer).
   */
  method DefaultQuestionValue(roundIndex: nat, values: seq<Option<int>>) returns (questionValue: int)
    ensures questionValue == 100 * (roundIndex + 1) * (1 + Rungs(values, 100 * (roundIndex + 1)))
    ensures 100 * (roundIndex + 1) <= questionValue <= 100 * (roundIndex + 1) * (|values| + 1)
  {
    var baseValue := 100 * (roundIndex + 1);
    questionValue := baseValue;
    var index := 0;
    while index < |values|
      invariant index <= |values|
      invariant questionValue == baseValue * (1 + Rungs(values[..index], baseValue))
    {
      ghost var k := Rungs(values[..index], baseValue);
      assert values[..index + 1][..index] == values[..index];
      assert |values[..index + 1]| == index + 1;
      if values[index] == Some(baseValue * (index + 1)) {
        assert Rungs(values[..index + 1], baseValue) == k + 1;
        NextRung(baseValue, k);
        questionValue := questionValue + baseValue;
      } else {
        assert Rungs(values[..index + 1], baseValue) == k;
      }
      index := index + 1;
    }
    assert values[..|values|] == values;
    RungsBound(baseValue, Rungs(values, baseValue), |values|);
  }

  lemma NextRung(base: int, k: nat)
    ensures base * (1 + k) + base == base * (1 + (k + 1))
  {
  }

  lemma RungsBound(base: nat, k: nat, n: nat)
    requires k <= n
    ensures base <= base * (1 + k) <= base * (n + 1)
  {
  }

  /** When every existing question sits on its rung, the new one takes the next rung. */
  lemma {:induction false} FullLadder(values: seq<Option<int>>, base: int)
    requires forall i :: 0 <= i < |values| ==> values[i] == Some(base * (i + 1))
    ensures Rungs(values, base) == |values|
    decreases |values|
  {
    if |values| > 0 {
      FullLadder(values[..|values| - 1], base);
    }
  }

  /** The comparator `orderQuestions` sorts the question names with: JavaScript string order. */
  function CompareValues(va: string, vb: string): (r: int)
    ensures r == -1 <==> LexLess(va, vb)
    ensures r == 1 <==> LexLess(vb, va)
    ensures r == 0 <==> va == vb
  {
    LexLessTotal(va, vb);
    LexLessIrreflexive(va);
    if LexLess(va, vb) then LexLessAsymmetric(va, vb); -1
    else if LexLess(vb, va) then 1
    else 0
  }

  /** The comparator is consistent: swapping the arguments negates it, and "before" is transitive. */
  lemma CompareValuesConsistent(a: string, b: string, c: string)
    ensures CompareValues(a, b) == -CompareValues(b, a)
    ensures CompareValues(a, b) < 0 && CompareValues(b, c) < 0 ==> CompareValues(a, c) < 0
  {
    if CompareValues(a, b) < 0 && CompareValues(b, c) < 0 {
      LexLessTransitive(a, b, c);
    }
  }

  /** Values are ordered as text, not as numbers: "1000" comes before "200". */
  lemma TextOrderOfValues()
    ensures CompareValues("1000", "200") == -1
  {
    assert LexLess("1000", "200");
  }
}
