// The vocabulary preparation scripts: counting ideographs, cleaning TOCFL words, building the
// JSON entries batch by batch with ids, and the Han-Viet pass over the finished entries.
// Translation services and the Jyutping romaniser are function parameters.
module DataPrep {
  import opened Wrappers
  import opened Text
  import opened Collections
  import HanViet

  // ---------------------------------------------------------------------------
  // count_chinese_characters
  // ---------------------------------------------------------------------------

  /**
   * The translation scripts' `count_chinese_characters`: the ideographs left after cutting at the
   * first pipe, removing bracketed spans and stripping, with the script's own spelling `d` of
   * the full-width delimiters.
   */
  function CleanCount(text: string, d: Delims): (n: nat)
    requires d.pipe != []
    ensures n <= |text|
  {
    CountCjk(CleanWord(text, d))
  }

  /** The count is the number of U+4E00..U+9FFF characters in the cleaned text, no more. */
  lemma CleanCountIsCjkFilter(text: string, d: Delims)
    requires d.pipe != []
    ensures CleanCount(text, d) == |Filter(CleanWord(text, d), IsCjk)|
  {
    CountIsFilter(CleanWord(text, d));
  }

  lemma {:induction false} CountIsFilter(s: string)
    ensures CountCjk(s) == |Filter(s, IsCjk)|
  {
    if s != [] {
      var init, last := s[..|s| - 1], s[|s| - 1];
      assert s == init + [last];
      CountIsFilter(init);
      CountCjkAppend(init, [last]);
      assert CountCjk([last]) == if IsCjk(last) then 1 else 0;
    }
  }

  /** Text without pipes or opening brackets is only stripped, which drops no ideograph. */
  lemma CleanCountPlain(text: string, d: Delims)
    requires d.pipe != [] && !Contains(text, d.pipe) && '|' !in text
    requires forall k :: 0 <= k < |text| ==> text[k] !in d.opens
    ensures CleanCount(text, d) == CountCjk(text)
  {
    BeforeFirstSpec(text, d.pipe);
    ContainsOne(text, '|');
    BeforeFirstSpec(text, "|");
    RemoveBracketedNoOpen(text, d.opens, d.closes);
    StripIsTrim(text);
    CountCjkTrim(text);
  }

  /** Everything after the first ASCII pipe is ignored. */
  lemma CleanCountCutsAtPipe(a: string, b: string, d: Delims)
    requires d.pipe != [] && '|' !in a && !Contains(a + "|" + b, d.pipe)
    ensures CleanCount(a + "|" + b, d) == CleanCount(a, d)
  {
    var s := a + "|" + b;
    assert s == a + ("|" + b);
    forall i | 0 <= i <= |a|
      ensures !OccursAt(a, d.pipe, i)
    {
      OccursInAppend(a, "|" + b, d.pipe, i);
    }
    BeforeFirstSpec(s, d.pipe);
    BeforeFirstSpec(a, d.pipe);
    assert OccursAt(s, "|", |a|);
    forall i | 0 <= i < |a|
      ensures !OccursAt(s, "|", i)
    {
      assert s[i] == a[i];
    }
    BeforeFirstSpec(s, "|");
    assert BeforeFirst(s, "|") == a;
    ContainsOne(a, '|');
    BeforeFirstSpec(a, "|");
  }

  /** `count_characters.py`: no cleaning at all, and 0 for the empty string. */
  function PlainCount(text: string): (n: nat)
    ensures n == CountCjk(text)
    ensures n == |Filter(text, IsCjk)|
  {
    CountIsFilter(text);
    if text == "" then 0 else CountCjk(text)
  }

  // ---------------------------------------------------------------------------
  // clean_word_type: re.sub(r"\s*\([^)]*\)\s*$", "", text).strip()
  // ---------------------------------------------------------------------------

  /** The end of the run of whitespace that starts at `i`. */
  function SpaceRun(s: string, i: nat): (p: nat)
    requires i <= |s|
    ensures i <= p <= |s| && forall k :: i <= k < p ==> PySpace(s[k])
    ensures p < |s| ==> !PySpace(s[p])
    decreases |s| - i
  {
    if i < |s| && PySpace(s[i]) then SpaceRun(s, i + 1) else i
  }

  /** The first position at or after `from` holding `c`. */
  function NextIndex(s: string, c: char, from: nat): (r: Option<nat>)
    requires from <= |s|
    ensures r.Some? ==> from <= r.value < |s| && s[r.value] == c
    ensures r.Some? ==> forall k :: from <= k < r.value ==> s[k] != c
    ensures r.None? ==> forall k :: from <= k < |s| ==> s[k] != c
    decreases |s| - from
  {
    if from == |s| then None
    else if s[from] == c then Some(from)
    else NextIndex(s, c, from + 1)
  }

  /**
   * The pattern matches at `i`: whitespace, `(`, everything up to the first `)`, and nothing but
   * whitespace after it. (`$` also matches before a final newline, but the greedy `\s*` has
   * already taken that newline.)
   */
  predicate AnnotationAt(s: string, i: nat)
    requires i <= |s|
  {
    var p := SpaceRun(s, i);
    p < |s| && s[p] == '(' &&
    match NextIndex(s, ')', p + 1)
    case Some(q) => SpaceRun(s, q + 1) == |s|
    case None => false
  }

  /** Where the leftmost match starts, searching from `i`. */
  function AnnotationStart(s: string, i: nat): (r: Option<nat>)
    requires i <= |s|
    ensures r.Some? ==> i <= r.value <= |s| && AnnotationAt(s, r.value)
    ensures r.Some? ==> forall k :: i <= k < r.value ==> !AnnotationAt(s, k)
    ensures r.None? ==> forall k :: i <= k <= |s| ==> !AnnotationAt(s, k)
    decreases |s| - i
  {
    if AnnotationAt(s, i) then Some(i)
    else if i == |s| then None
    else AnnotationStart(s, i + 1)
  }

  /**
   * `clean_word_type`: the match, when there is one, runs to the end of the text, so the
   * substitution keeps what comes before it; then the result is stripped.
   */
  function CleanWordType(s: string): (r: string)
    ensures |r| <= |s|
  {
    match AnnotationStart(s, 0)
    case Some(i) => Strip(s[..i])
    case None => Strip(s)
  }

  /** A word without an opening parenthesis is only stripped. */
  lemma CleanWordTypeNoAnnotation(s: string)
    requires '(' !in s
    ensures CleanWordType(s) == Strip(s)
  {
  }

  /**
   * A trailing `(…)` annotation, the whitespace around it and the ends of the word are removed:
   * `w + sp1 + "(" + x + ")" + sp2` cleans to the stripped `w`.
   */
  lemma CleanWordTypeDropsAnnotation(w: string, sp1: string, x: string, sp2: string)
    requires '(' !in w && (w == [] || !PySpace(w[|w| - 1])) && ')' !in x
    requires forall k :: 0 <= k < |sp1| ==> PySpace(sp1[k])
    requires forall k :: 0 <= k < |sp2| ==> PySpace(sp2[k])
    ensures CleanWordType(w + sp1 + "(" + x + ")" + sp2) == Strip(w)
  {
    var s := w + sp1 + "(" + x + ")" + sp2;
    AnnotatedLayout(w, sp1, x, sp2);
    CleanWordTypeCutsAt(s, |w|, |w| + |sp1|, |w| + |sp1| + 1 + |x|);
  }

  /** Where the parts of `w + sp1 + "(" + x + ")" + sp2` sit. */
  lemma AnnotatedLayout(w: string, sp1: string, x: string, sp2: string)
    requires '(' !in w && ')' !in x
    requires forall k :: 0 <= k < |sp1| ==> PySpace(sp1[k])
    requires forall k :: 0 <= k < |sp2| ==> PySpace(sp2[k])
    ensures var s := w + sp1 + "(" + x + ")" + sp2;
      var p := |w| + |sp1|;
      var q := p + 1 + |x|;
      q < |s| && s[..|w|] == w && s[p] == '(' && s[q] == ')' &&
      (forall k :: 0 <= k < |w| ==> s[k] != '(') &&
      (forall k :: |w| <= k < p ==> PySpace(s[k])) &&
      (forall k :: p < k < q ==> s[k] != ')') &&
      (forall k :: q < k < |s| ==> PySpace(s[k]))
  {
    var s := w + sp1 + "(" + x + ")" + sp2;
    var p := |w| + |sp1|;
    var q := p + 1 + |x|;
    forall k | 0 <= k < |w|
      ensures s[k] == w[k]
    {
    }
    forall k | |w| <= k < p
      ensures PySpace(s[k])
    {
      assert s[k] == sp1[k - |w|];
    }
    forall k | p < k < q
      ensures s[k] != ')'
    {
      assert s[k] == x[k - p - 1];
    }
    forall k | q < k < |s|
      ensures PySpace(s[k])
    {
      assert s[k] == sp2[k - q - 1];
    }
    assert s[..|w|] == w;
  }

  /** When the first match starts at `j`, the cleaned word is the stripped `s[..j]`. */
  lemma CleanWordTypeCutsAt(s: string, j: nat, p: nat, q: nat)
    requires j <= p < q < |s| && s[p] == '(' && s[q] == ')'
    requires j > 0 ==> !PySpace(s[j - 1])
    requires forall k :: 0 <= k < j ==> s[k] != '('
    requires forall k :: j <= k < p ==> PySpace(s[k])
    requires forall k :: p < k < q ==> s[k] != ')'
    requires forall k :: q < k < |s| ==> PySpace(s[k])
    ensures CleanWordType(s) == Strip(s[..j])
  {
    AnnotationHere(s, j, p, q);
    NoAnnotationBefore(s, j);
    assert AnnotationStart(s, 0) == Some(j);
  }

  /** Whitespace from `i` to `p`, `(` at `p`, the first `)` after it at `q`, whitespace to the end. */
  lemma AnnotationHere(s: string, i: nat, p: nat, q: nat)
    requires i <= p < q < |s| && s[p] == '(' && s[q] == ')'
    requires forall k :: i <= k < p ==> PySpace(s[k])
    requires forall k :: p < k < q ==> s[k] != ')'
    requires forall k :: q < k < |s| ==> PySpace(s[k])
    ensures AnnotationAt(s, i)
  {
    SpaceRunOver(s, i, p);
    assert NextIndex(s, ')', p + 1) == Some(q);
    SpaceRunOver(s, q + 1, |s|);
  }

  /** No match starts in a prefix without `(` that does not end in whitespace. */
  lemma NoAnnotationBefore(s: string, j: nat)
    requires j <= |s| && (j > 0 ==> !PySpace(s[j - 1]))
    requires forall k :: 0 <= k < j ==> s[k] != '('
    ensures forall k :: 0 <= k < j ==> !AnnotationAt(s, k)
  {
    forall k | 0 <= k < j
      ensures !AnnotationAt(s, k)
    {
      SpaceRunStops(s, k, j);
    }
  }

  /** A run of whitespace that starts before a non-space character ends before it. */
  lemma {:induction false} SpaceRunStops(s: string, k: nat, j: nat)
    requires k < j <= |s| && !PySpace(s[j - 1])
    ensures SpaceRun(s, k) < j
    decreases j - k
  {
    if PySpace(s[k]) {
      SpaceRunStops(s, k + 1, j);
    }
  }

  lemma {:induction false} SpaceRunOver(s: string, i: nat, j: nat)
    requires i <= j <= |s| && (j < |s| ==> !PySpace(s[j]))
    requires forall k :: i <= k < j ==> PySpace(s[k])
    ensures SpaceRun(s, i) == j
    decreases j - i
  {
    if i < j {
      SpaceRunOver(s, i + 1, j);
    }
  }

  // ---------------------------------------------------------------------------
  // The translation services
  // ---------------------------------------------------------------------------

  /**
   * `translate_text` of `scripts/process_tocfl_translations_parallel.py`: the empty text is not
   * sent; otherwise the first translation the backend returns, or "" when it returns none.
   */
  function TranslateText(text: string, target: string, backend: (string, string) -> seq<string>): (r: string)
    ensures text == "" ==> r == ""
    ensures r != "" ==> backend(text, target) != [] && r == backend(text, target)[0]
  {
    if text == "" then ""
    else
      var response := backend(text, target);
      if response != [] then response[0] else ""
  }

  /** `get_jyutping`: the romaniser is not called on the empty text. */
  function GetJyutping(text: string, jyutping: string -> string): (r: string)
    ensures text == "" ==> r == ""
    ensures text != "" ==> r == jyutping(text)
  {
    if text == "" then "" else jyutping(text)
  }

  /** Neither guard consults its service on the empty text: any two services agree there. */
  lemma EmptyTextNeedsNoService(target: string, b1: (string, string) -> seq<string>, b2: (string, string) -> seq<string>,
                                j1: string -> string, j2: string -> string)
    ensures TranslateText("", target, b1) == TranslateText("", target, b2) == ""
    ensures GetJyutping("", j1) == GetJyutping("", j2) == ""
  {
  }

  // ---------------------------------------------------------------------------
  // Entries
  // ---------------------------------------------------------------------------

  /**
   * One JSON vocabulary entry. `hanviet`, `wordType` and `domain` are `None` where a script does
   * not write that key.
   */
  datatype VocabEntry = VocabEntry(
    id: int, simplified: string, traditional: string, pinyin: string, jyutping: string,
    english: string, vietnamese: string, characterCount: nat,
    hanviet: Option<string>, wordType: Option<string>, domain: Option<string>)

  /**
   * `entry["hanviet"] = hanviet_reading if hanviet_reading else ""`, looked up by the entry's
   * `traditionalChinese`.
   */
  function WithHanViet(e: VocabEntry, t: HanViet.Table): (r: VocabEntry)
    ensures r.(hanviet := e.hanviet) == e
    ensures r.hanviet.Some?
    ensures r.hanviet == Some("") <== HanViet.FindReading(e.traditional, t).None?
  {
    e.(hanviet := Some(HanViet.FindReading(e.traditional, t).GetOr("")))
  }

  /** An entry whose traditional form is empty gets the empty reading; a second pass changes nothing. */
  lemma WithHanVietSettles(e: VocabEntry, t: HanViet.Table)
    ensures e.traditional == "" ==> WithHanViet(e, t).hanviet == Some("")
    ensures WithHanViet(WithHanViet(e, t), t) == WithHanViet(e, t)
  {
  }

  /** The `for entry in processed_data` loop that adds `hanviet` to every entry in place. */
  method AddHanViet(entries: seq<VocabEntry>, t: HanViet.Table) returns (out: seq<VocabEntry>)
    ensures |out| == |entries| && forall k :: 0 <= k < |entries| ==> out[k] == WithHanViet(entries[k], t)
  {
    out := entries;
    for i := 0 to |out|
      invariant |out| == |entries|
      invariant forall k :: 0 <= k < i ==> out[k] == WithHanViet(entries[k], t)
      invariant forall k :: i <= k < |out| ==> out[k] == entries[k]
    {
      var reading := HanViet.FindReadingWithMultiple(out[i].traditional, t);
      out := out[i := out[i].(hanviet := Some(if reading.Some? then reading.value else ""))];
    }
  }

  // ---------------------------------------------------------------------------
  // scripts/process_hsk7_json.py
  // ---------------------------------------------------------------------------

  /** `forms[0]` of an HSK 7 item; a missing key is `None` (or the empty list for `meanings`). */
  datatype Hsk7Form = Hsk7Form(traditional: Option<string>, pinyin: Option<string>, meanings: seq<string>)

  datatype Hsk7Item = Hsk7Item(simplified: string, forms: seq<Hsk7Form>)

  const Hsk7BatchSize: nat := 200

  /** The first form's non-empty `traditional`, falling back to `simplified`. */
  function Hsk7Traditional(item: Hsk7Item): (r: string)
    ensures r == item.simplified || (item.forms != [] && item.forms[0].traditional == Some(r))
    ensures r != "" || item.simplified == ""
    ensures (item.forms == [] || item.forms[0].traditional.None?) ==> r == item.simplified
  {
    if item.forms != [] && item.forms[0].traditional.Some? && item.forms[0].traditional.value != "" then
      item.forms[0].traditional.value
    else item.simplified
  }

  /** The first form's non-empty pinyin, or "". */
  function Hsk7Pinyin(item: Hsk7Item): (r: string)
    ensures r == "" || (item.forms != [] && item.forms[0].pinyin == Some(r))
    ensures (item.forms == [] || item.forms[0].pinyin.None?) ==> r == ""
  {
    if item.forms != [] && item.forms[0].pinyin.Some? && item.forms[0].pinyin.value != "" then
      item.forms[0].pinyin.value
    else ""
  }

  /** The first form's meanings joined by ", ", or "" without meanings. */
  function Hsk7English(item: Hsk7Item): (r: string)
    ensures (item.forms == [] || item.forms[0].meanings == []) ==> r == ""
  {
    if item.forms != [] && item.forms[0].meanings != [] then Join(item.forms[0].meanings, ", ") else ""
  }

  /** Every meaning of the first form appears in the English text. */
  lemma Hsk7EnglishHasEveryMeaning(item: Hsk7Item, k: nat)
    requires item.forms != [] && k < |item.forms[0].meanings|
    ensures Contains(Hsk7English(item), item.forms[0].meanings[k])
  {
    JoinContainsParts(item.forms[0].meanings, ", ", k);
  }

  /**
   * The backend returns either no translations or at least one per text. A non-empty answer
   * shorter than the batch is passed on unchanged, and `process_batch` then fails on it.
   */
  predicate AnswersBatch(api: seq<string> -> seq<string>, texts: seq<string>) {
    api(texts) == [] || |api(texts)| >= |texts|
  }

  /** `translate_batch_from_traditional`: one "" per text when the API returns no translations, else its answer as it is. */
  function TranslateBatch(texts: seq<string>, api: seq<string> -> seq<string>): (r: seq<string>)
    ensures |r| >= |texts| <==> AnswersBatch(api, texts)
    ensures api(texts) == [] ==> |r| == |texts| && forall k :: 0 <= k < |r| ==> r[k] == ""
    ensures api(texts) != [] ==> r == api(texts)
  {
    if api(texts) != [] then api(texts) else seq(|texts|, _ => "")
  }

  function Traditionals(batch: seq<Hsk7Item>): (r: seq<string>)
    ensures |r| == |batch| && forall k :: 0 <= k < |batch| ==> r[k] == Hsk7Traditional(batch[k])
  {
    seq(|batch|, k requires 0 <= k < |batch| => Hsk7Traditional(batch[k]))
  }

  /** The entry `process_batch` builds for one item, given its id and Vietnamese translation. */
  function Hsk7Entry(item: Hsk7Item, id: int, vietnamese: string, jyutping: string -> string): VocabEntry {
    var traditional := Hsk7Traditional(item);
    VocabEntry(id, item.simplified, traditional, Hsk7Pinyin(item), jyutping(traditional),
      Hsk7English(item), vietnamese, CleanCount(item.simplified, MacRomanSpelling), None, None, None)
  }

  /**
   * `process_batch`: the item fields in a first loop, one batch translation, the entries in a
   * second loop. `None` is the `IndexError` raised when the answer is shorter than the batch.
   */
  method ProcessHsk7Batch(batch: seq<Hsk7Item>, batchNum: nat, api: seq<string> -> seq<string>,
                          jyutping: string -> string) returns (results: Option<seq<VocabEntry>>)
    ensures results.None? <==> !AnswersBatch(api, Traditionals(batch))
    ensures results.Some? ==> |results.value| == |batch|
    ensures results.Some? ==> forall i :: 0 <= i < |batch| ==>
      results.value[i] == Hsk7Entry(batch[i], batchNum * 200 + i + 1, TranslateBatch(Traditionals(batch), api)[i], jyutping)
  {
    var simplifiedList, traditionalList, pinyinList, englishList := [], [], [], [];
    for i := 0 to |batch|
      invariant |simplifiedList| == |traditionalList| == |pinyinList| == |englishList| == i
      invariant forall k :: 0 <= k < i ==> simplifiedList[k] == batch[k].simplified
      invariant forall k :: 0 <= k < i ==> traditionalList[k] == Hsk7Traditional(batch[k])
      invariant forall k :: 0 <= k < i ==> pinyinList[k] == Hsk7Pinyin(batch[k])
      invariant forall k :: 0 <= k < i ==> englishList[k] == Hsk7English(batch[k])
    {
      simplifiedList := simplifiedList + [batch[i].simplified];
      traditionalList := traditionalList + [Hsk7Traditional(batch[i])];
      pinyinList := pinyinList + [Hsk7Pinyin(batch[i])];
      englishList := englishList + [Hsk7English(batch[i])];
    }
    assert traditionalList == Traditionals(batch);
    var vietnameseTexts := TranslateBatch(traditionalList, api);
    var jyutpingResults := seq(|traditionalList|, k requires 0 <= k < |traditionalList| => jyutping(traditionalList[k]));
    results := BuildHsk7Entries(batchNum, simplifiedList, traditionalList, pinyinList, jyutpingResults,
      englishList, vietnameseTexts);
    if results.Some? {
      ListsMakeHsk7Entries(batch, batchNum, simplifiedList, traditionalList, pinyinList, jyutpingResults,
        englishList, vietnameseTexts, jyutping);
    }
  }

  /**
   * The second loop of `process_batch`: one entry per position of the field lists, failing
   * (`vietnamese_texts[i]` out of range) at the first position the translations do not reach.
   */
  method BuildHsk7Entries(batchNum: nat, simplifiedList: seq<string>, traditionalList: seq<string>,
                          pinyinList: seq<string>, jyutpingResults: seq<string>, englishList: seq<string>,
                          vietnameseTexts: seq<string>) returns (results: Option<seq<VocabEntry>>)
    requires |traditionalList| == |pinyinList| == |jyutpingResults| == |englishList| == |simplifiedList|
    ensures results.None? <==> |vietnameseTexts| < |simplifiedList|
    ensures results.Some? ==> results.value == EntriesOfLists(batchNum, simplifiedList, traditionalList, pinyinList,
      jyutpingResults, englishList, vietnameseTexts)
  {
    var built := [];
    for i := 0 to |simplifiedList|
      invariant i <= |vietnameseTexts|
      invariant |built| == i
      invariant forall k :: 0 <= k < i ==> built[k] == VocabEntry(k + 1 + batchNum * 200, simplifiedList[k],
        traditionalList[k], pinyinList[k], jyutpingResults[k], englishList[k], vietnameseTexts[k],
        CleanCount(simplifiedList[k], MacRomanSpelling), None, None, None)
    {
      var characterCount := CleanCount(simplifiedList[i], MacRomanSpelling);
      if i >= |vietnameseTexts| {
        return None;
      }
      var entry := VocabEntry(i + 1 + batchNum * 200, simplifiedList[i], traditionalList[i], pinyinList[i],
        jyutpingResults[i], englishList[i], vietnameseTexts[i], characterCount, None, None, None);
      built := built + [entry];
    }
    results := Some(built);
  }

  /** The entries the second loop of `process_batch` builds from the per-field lists. */
  function EntriesOfLists(batchNum: nat, simplified: seq<string>, traditional: seq<string>, pinyin: seq<string>,
                          jyutping: seq<string>, english: seq<string>, vietnamese: seq<string>): (r: seq<VocabEntry>)
    requires |traditional| == |pinyin| == |jyutping| == |english| == |simplified| <= |vietnamese|
    ensures |r| == |simplified|
  {
    seq(|simplified|, k requires 0 <= k < |simplified| =>
      VocabEntry(k + 1 + batchNum * 200, simplified[k], traditional[k], pinyin[k], jyutping[k], english[k],
        vietnamese[k], CleanCount(simplified[k], MacRomanSpelling), None, None, None))
  }

  lemma ListsMakeHsk7Entries(batch: seq<Hsk7Item>, batchNum: nat, simplified: seq<string>, traditional: seq<string>,
                             pinyin: seq<string>, jyutpingResults: seq<string>, english: seq<string>,
                             vietnamese: seq<string>, jyutping: string -> string)
    requires |traditional| == |pinyin| == |jyutpingResults| == |english| == |simplified| == |batch| <= |vietnamese|
    requires forall k :: 0 <= k < |batch| ==> simplified[k] == batch[k].simplified
    requires forall k :: 0 <= k < |batch| ==> traditional[k] == Hsk7Traditional(batch[k])
    requires forall k :: 0 <= k < |batch| ==> pinyin[k] == Hsk7Pinyin(batch[k])
    requires forall k :: 0 <= k < |batch| ==> english[k] == Hsk7English(batch[k])
    requires forall k :: 0 <= k < |batch| ==> jyutpingResults[k] == jyutping(traditional[k])
    ensures forall i :: 0 <= i < |batch| ==>
      EntriesOfLists(batchNum, simplified, traditional, pinyin, jyutpingResults, english, vietnamese)[i]
      == Hsk7Entry(batch[i], batchNum * 200 + i + 1, vietnamese[i], jyutping)
  {
  }

  /** `json_data[start_idx:end_idx]` for batch `b`. */
  function Hsk7Batch(items: seq<Hsk7Item>, b: nat): (r: seq<Hsk7Item>)
    requires b * 200 < |items|
    ensures |r| <= 200
  {
    var start := b * 200;
    items[start..if start + 200 < |items| then start + 200 else |items|]
  }

  /** The backend answers every batch of `items`. */
  ghost predicate AnswersAllBatches(items: seq<Hsk7Item>, api: seq<string> -> seq<string>) {
    forall b: nat :: b * 200 < |items| ==> AnswersBatch(api, Traditionals(Hsk7Batch(items, b)))
  }

  /**
   * The Vietnamese text item `k` receives: its place in the answer for its batch (empty when that
   * answer is too short to have one, a case in which no entry is ever written).
   */
  function Hsk7Vietnamese(items: seq<Hsk7Item>, k: nat, api: seq<string> -> seq<string>): string
    requires k < |items|
  {
    BatchPosition(k);
    var answer := TranslateBatch(Traditionals(Hsk7Batch(items, BatchOf(k))), api);
    if PlaceInBatch(k) < |answer| then answer[PlaceInBatch(k)] else ""
  }

  /** The batch position `k` falls in: `k // 200`, by repeated subtraction. */
  function BatchOf(k: nat): nat
    decreases k
  {
    if k < 200 then 0 else 1 + BatchOf(k - 200)
  }

  /** The place of position `k` inside its batch: `k % 200`, by repeated subtraction. */
  function PlaceInBatch(k: nat): (i: nat)
    ensures i < 200
    decreases k
  {
    if k < 200 then k else PlaceInBatch(k - 200)
  }

  /** Batch and place recompose the position. */
  lemma {:induction false} BatchPosition(k: nat)
    ensures BatchOf(k) * 200 + PlaceInBatch(k) == k
    decreases k
  {
    if k >= 200 {
      BatchPosition(k - 200);
    }
  }

  /**
   * `process_hsk7_json`: the batch loop and the Han-Viet pass. The run stops with nothing written
   * iff some batch gets a short answer; otherwise every item yields one entry, in input order,
   * with id `k + 1`.
   */
  method ProcessHsk7(items: seq<Hsk7Item>, api: seq<string> -> seq<string>, jyutping: string -> string,
                     t: HanViet.Table) returns (out: Option<seq<VocabEntry>>)
    ensures out.None? <==> !AnswersAllBatches(items, api)
    ensures out.Some? ==> |out.value| == |items|
    ensures out.Some? ==> forall k :: 0 <= k < |items| ==>
      out.value[k] == WithHanViet(Hsk7Entry(items[k], k + 1, Hsk7Vietnamese(items, k, api), jyutping), t)
    ensures out.Some? ==> forall k :: 0 <= k < |items| ==> out.value[k].id == k + 1
  {
    ghost var entryOf := Hsk7EntryOf(items, api, Hsk7Maker(jyutping));
    var processed := [];
    var totalBatches := (|items| + 200 - 1) / 200;
    BatchCount(|items|, 200, 0);
    for batchNum := 0 to totalBatches
      invariant |processed| == if batchNum * 200 < |items| then batchNum * 200 else |items|
      invariant forall b: nat :: b < batchNum && b * 200 < |items| ==> AnswersBatch(api, Traditionals(Hsk7Batch(items, b)))
      invariant NumberedPrefix(processed, items, entryOf)
    {
      BatchCount(|items|, 200, batchNum);
      var startIdx := batchNum * 200;
      var endIdx := if startIdx + 200 < |items| then startIdx + 200 else |items|;
      var batchData := items[startIdx..endIdx];
      assert batchData == Hsk7Batch(items, batchNum);
      var batchResults := ProcessHsk7Batch(batchData, batchNum, api, jyutping);
      if batchResults.None? {
        return None;
      }
      Hsk7ExtendEntries(items, batchNum, api, jyutping, processed, batchResults.value);
      processed := processed + batchResults.value;
      BatchCount(|items|, 200, batchNum + 1);
    }
    BatchCount(|items|, 200, totalBatches);
    forall b: nat | b * 200 < |items|
      ensures AnswersBatch(api, Traditionals(Hsk7Batch(items, b)))
    {
      BatchCount(|items|, 200, b);
    }
    var withReadings := AddHanViet(processed, t);
    Hsk7Numbered(items, api, jyutping, t, processed, withReadings);
    out := Some(withReadings);
  }

  /** `Hsk7Entry` with the romaniser fixed, as a function of the item, its id and its translation. */
  function Hsk7Maker(jyutping: string -> string): (Hsk7Item, nat, string) -> VocabEntry {
    (item: Hsk7Item, n: nat, vietnamese: string) => Hsk7Entry(item, n, vietnamese, jyutping)
  }

  /** A batch's entries, as `process_batch` returns them, extend the numbered prefix. */
  lemma Hsk7ExtendEntries(items: seq<Hsk7Item>, b: nat, api: seq<string> -> seq<string>, jyutping: string -> string,
                          processed: seq<VocabEntry>, results: seq<VocabEntry>)
    requires b * 200 < |items| && AnswersBatch(api, Traditionals(Hsk7Batch(items, b))) && |processed| == b * 200
    requires NumberedPrefix(processed, items, Hsk7EntryOf(items, api, Hsk7Maker(jyutping)))
    requires var batch := Hsk7Batch(items, b);
      |results| == |batch| && forall i :: 0 <= i < |batch| ==>
        results[i] == Hsk7Entry(batch[i], b * 200 + i + 1, TranslateBatch(Traditionals(batch), api)[i], jyutping)
    ensures NumberedPrefix(processed + results, items, Hsk7EntryOf(items, api, Hsk7Maker(jyutping)))
  {
    var batch := Hsk7Batch(items, b);
    forall i | 0 <= i < |batch|
      ensures results[i] == Hsk7Maker(jyutping)(batch[i], b * 200 + i + 1, TranslateBatch(Traditionals(batch), api)[i])
    {
    }
    Hsk7Extend(items, b, api, Hsk7Maker(jyutping), processed, results);
  }

  /** The numbered prefix, once complete and given its Han-Viet readings, is what `process_hsk7_json` promises. */
  lemma Hsk7Numbered(items: seq<Hsk7Item>, api: seq<string> -> seq<string>, jyutping: string -> string,
                     t: HanViet.Table, processed: seq<VocabEntry>, out: seq<VocabEntry>)
    requires |processed| == |items|
    requires NumberedPrefix(processed, items, Hsk7EntryOf(items, api, Hsk7Maker(jyutping)))
    requires |out| == |processed| && forall k :: 0 <= k < |processed| ==> out[k] == WithHanViet(processed[k], t)
    ensures forall k :: 0 <= k < |items| ==>
      out[k] == WithHanViet(Hsk7Entry(items[k], k + 1, Hsk7Vietnamese(items, k, api), jyutping), t)
    ensures forall k :: 0 <= k < |items| ==> out[k].id == k + 1
  {
    forall k | 0 <= k < |items|
      ensures out[k] == WithHanViet(Hsk7Entry(items[k], k + 1, Hsk7Vietnamese(items, k, api), jyutping), t)
    {
      assert processed[k] == Hsk7Entry(items[k], k + 1, Hsk7Vietnamese(items, k, api), jyutping);
    }
  }

  /**
   * What the item at 1-based position `n` of `items` becomes when `mk` builds an entry from an
   * item, its id and the Vietnamese text its batch received.
   */
  ghost function Hsk7EntryOf<V>(items: seq<Hsk7Item>, api: seq<string> -> seq<string>, mk: (Hsk7Item, nat, string) -> V)
    : (Hsk7Item, nat) -> V
  {
    (item: Hsk7Item, n: nat) => mk(item, n, if 0 < n <= |items| then Hsk7Vietnamese(items, n - 1, api) else "")
  }

  /** Appending the entries of batch `b` keeps every entry at the position its item has. */
  lemma Hsk7Extend<V>(items: seq<Hsk7Item>, b: nat, api: seq<string> -> seq<string>, mk: (Hsk7Item, nat, string) -> V,
                      processed: seq<V>, results: seq<V>)
    requires b * 200 < |items| && AnswersBatch(api, Traditionals(Hsk7Batch(items, b))) && |processed| == b * 200
    requires NumberedPrefix(processed, items, Hsk7EntryOf(items, api, mk))
    requires var batch := Hsk7Batch(items, b);
      |results| == |batch| && forall i :: 0 <= i < |batch| ==>
        results[i] == mk(batch[i], b * 200 + i + 1, TranslateBatch(Traditionals(batch), api)[i])
    ensures NumberedPrefix(processed + results, items, Hsk7EntryOf(items, api, mk))
  {
    Hsk7BatchPlaces(items, b, api, mk, results);
    NumberedAppend(processed, items, Hsk7EntryOf(items, api, mk), results);
  }

  /** The entries of batch `b` sit at positions `b * 200 + i` with their items' ids and translations. */
  lemma Hsk7BatchPlaces<V>(items: seq<Hsk7Item>, b: nat, api: seq<string> -> seq<string>,
                           mk: (Hsk7Item, nat, string) -> V, results: seq<V>)
    requires b * 200 < |items| && AnswersBatch(api, Traditionals(Hsk7Batch(items, b)))
    requires var batch := Hsk7Batch(items, b);
      |results| == |batch| && forall i :: 0 <= i < |batch| ==>
        results[i] == mk(batch[i], b * 200 + i + 1, TranslateBatch(Traditionals(batch), api)[i])
    ensures forall i :: 0 <= i < |results| ==>
      results[i] == Hsk7EntryOf(items, api, mk)(items[b * 200 + i], b * 200 + i + 1)
  {
    forall i | 0 <= i < |results|
      ensures results[i] == Hsk7EntryOf(items, api, mk)(items[b * 200 + i], b * 200 + i + 1)
    {
      Hsk7PlaceArgs(items, b, i, api);
    }
  }

  lemma Hsk7PlaceArgs(items: seq<Hsk7Item>, b: nat, i: nat, api: seq<string> -> seq<string>)
    requires b * 200 < |items| && AnswersBatch(api, Traditionals(Hsk7Batch(items, b))) && i < |Hsk7Batch(items, b)|
    ensures Hsk7Batch(items, b)[i] == items[b * 200 + i]
    ensures Hsk7Vietnamese(items, b * 200 + i, api) == TranslateBatch(Traditionals(Hsk7Batch(items, b)), api)[i]
  {
    Hsk7Position(b, i);
  }

  /** Place `i` of batch `b` is position `b * 200 + i`. */
  lemma {:induction false} Hsk7Position(b: nat, i: nat)
    requires i < 200
    ensures BatchOf(b * 200 + i) == b && PlaceInBatch(b * 200 + i) == i
  {
    if b > 0 {
      assert b * 200 + i - 200 == (b - 1) * 200 + i;
      Hsk7Position(b - 1, i);
    }
  }

  // ---------------------------------------------------------------------------
  // scripts/process_hsk_translations_parallel.py
  // ---------------------------------------------------------------------------

  /** One CSV row; `no` is `int(row["No"])`. */
  datatype HskRow = HskRow(no: int, chinese: string, pinyin: string, english: string)

  const HskBatchSize: nat := 5

  /**
   * `process_single_word`: traditional and Vietnamese from the translator (`"zh-Hant"` is sent as
   * `"zh-TW"`), Jyutping of the simplified word, and the count of the simplified word.
   */
  function HskEntry(row: HskRow, translate: (string, string) -> string, jyutping: string -> string): (e: VocabEntry)
    ensures e.id == row.no && e.simplified == row.chinese && e.pinyin == row.pinyin && e.english == row.english
    ensures e.characterCount <= |row.chinese|
  {
    VocabEntry(row.no, row.chinese, translate(row.chinese, "zh-TW"), row.pinyin, jyutping(row.chinese),
      row.english, translate(row.chinese, "vi"), CleanCount(row.chinese, FullWidth), None, None, None)
  }

  /**
   * `process_hsk_csv`: batches of five (the word index only reaches the progress output), then
   * the Han-Viet pass: one entry per row, in order.
   */
  method ProcessHskCsv(rows: seq<HskRow>, translate: (string, string) -> string, jyutping: string -> string,
                       t: HanViet.Table) returns (out: seq<VocabEntry>)
    ensures |out| == |rows|
    ensures forall k :: 0 <= k < |rows| ==> out[k] == WithHanViet(HskEntry(rows[k], translate, jyutping), t)
  {
    var processed := InBatches(rows, HskBatchSize, (row, wordIndex) => HskEntry(row, translate, jyutping));
    out := AddHanViet(processed, t);
  }

  // ---------------------------------------------------------------------------
  // The TOCFL scripts
  // ---------------------------------------------------------------------------

  /** The columns `詞彙`, `漢語拼音`, `詞類` and `任務領域`. */
  datatype TocflRow = TocflRow(word: string, pinyin: string, wordType: string, domain: string)

  /** The entry `process_csv` appends for a kept row. */
  function TocflEntry(row: TocflRow, id: int, backend: (string, string) -> seq<string>, jyutping: string -> string): VocabEntry {
    var chinese := CleanWordType(row.word);
    VocabEntry(id, TranslateText(chinese, "zh-CN", backend), chinese, Strip(row.pinyin), GetJyutping(chinese, jyutping),
      TranslateText(chinese, "en", backend), TranslateText(chinese, "vi", backend), CleanCount(chinese, FullWidth),
      Some(""), None, None)
  }

  /** A row is kept when its cleaned word is not empty. */
  predicate HasWord(row: TocflRow) {
    CleanWordType(row.word) != ""
  }

  /**
   * `process_csv` of `scripts/process_tocfl_translations_parallel.py`: rows with an empty
   * cleaned word are skipped and the kept rows are numbered 1, 2, … by the length of the output.
   */
  method ProcessTocflCsv(rows: seq<TocflRow>, backend: (string, string) -> seq<string>, jyutping: string -> string)
    returns (out: seq<VocabEntry>)
    ensures |out| == |Filter(rows, HasWord)|
    ensures forall k :: 0 <= k < |out| ==> out[k] == TocflEntry(Filter(rows, HasWord)[k], k + 1, backend, jyutping)
    ensures forall k :: 0 <= k < |out| ==> out[k].id == k + 1 && out[k].traditional != ""
  {
    ghost var entryOf := (row, id) => TocflEntry(row, id, backend, jyutping);
    ghost var kept: seq<TocflRow> := [];
    out := [];
    for idx := 0 to |rows|
      invariant kept == Filter(rows[..idx], HasWord)
      invariant |out| == |kept| && NumberedPrefix(out, kept, entryOf)
    {
      var row := rows[idx];
      FilterStep(rows, idx, HasWord);
      var chinese := CleanWordType(row.word);
      var pinyin := Strip(row.pinyin);
      if chinese == "" {
        assert !HasWord(row);
        continue;
      }
      var simplified := TranslateText(chinese, "zh-CN", backend);
      var vietnamese := TranslateText(chinese, "vi", backend);
      var english := TranslateText(chinese, "en", backend);
      var jyut := GetJyutping(chinese, jyutping);
      var entry := VocabEntry(|out| + 1, simplified, chinese, pinyin, jyut, english, vietnamese,
        CleanCount(chinese, FullWidth), Some(""), None, None);
      assert entry == entryOf(row, |kept| + 1);
      NumberedExtend(out, kept, entryOf, row, entry);
      out := out + [entry];
      kept := kept + [row];
    }
    assert rows[..|rows|] == rows;
  }

  /** When every row has a word, nothing is skipped: entry `k` comes from row `k`. */
  lemma TocflKeepsEveryWord(rows: seq<TocflRow>)
    requires forall k :: 0 <= k < |rows| ==> CleanWordType(rows[k].word) != ""
    ensures Filter(rows, HasWord) == rows
  {
    FilterKeepsAll(rows, HasWord);
  }

  /** The rows with a word and the rows without one account for every row of the CSV. */
  lemma TocflSkipsOnlyEmptyWords(rows: seq<TocflRow>)
    ensures |Filter(rows, HasWord)| + |Filter(rows, (row: TocflRow) => CleanWordType(row.word) == "")| == |rows|
  {
    FilterSplitsLength(rows, HasWord, (row: TocflRow) => CleanWordType(row.word) == "");
  }

  const TestRows: nat := 10
  const RootBatchSize: nat := 5

  /**
   * `process_single_word` of the root `process_tocfl_translations_parallel.py`: id is the word
   * index; no empty-text guard; word type and domain are stripped.
   */
  function RootTocflEntry(row: TocflRow, wordIndex: nat, translate: (string, string) -> string,
                          jyutping: string -> string): VocabEntry {
    var chinese := CleanWordType(row.word);
    VocabEntry(wordIndex, translate(chinese, "zh-CN"), chinese, Strip(row.pinyin), jyutping(chinese),
      translate(chinese, "en"), translate(chinese, "vi"), CleanCount(chinese, FullWidth),
      None, Some(Strip(row.wordType)), Some(Strip(row.domain)))
  }

  /**
   * `process_tocfl_csv`: the first ten rows in batches of five, then the Han-Viet pass. Entry `k`
   * has id `k + 1` and the cleaned word of row `k`.
   */
  method ProcessRootTocfl(rows: seq<TocflRow>, translate: (string, string) -> string, jyutping: string -> string,
                          t: HanViet.Table) returns (out: seq<VocabEntry>)
    ensures |out| == if |rows| < TestRows then |rows| else TestRows
    ensures forall k :: 0 <= k < |out| ==> out[k] == WithHanViet(RootTocflEntry(rows[k], k + 1, translate, jyutping), t)
    ensures forall k :: 0 <= k < |out| ==> out[k].id == k + 1 && out[k].traditional == CleanWordType(rows[k].word)
  {
    var csvData := if |rows| < TestRows then rows else rows[..TestRows];
    var processed := InBatches(csvData, RootBatchSize, (row, wordIndex) => RootTocflEntry(row, wordIndex, translate, jyutping));
    out := AddHanViet(processed, t);
  }

  // ---------------------------------------------------------------------------
  // count_characters.py
  // ---------------------------------------------------------------------------

  /** A JSON value, as far as `process_hsk_data` looks at it. */
  datatype Json = Str(s: string) | Num(n: int) | Null | Other

  type Entry = map<string, Json>

  /** `simplifiedChinese` is missing, a string or null: the values `count_chinese_characters` accepts. */
  predicate Countable(e: Entry) {
    "simplifiedChinese" in e ==> e["simplifiedChinese"].Str? || e["simplifiedChinese"].Null?
  }

  /** `count_chinese_characters(entry.get("simplifiedChinese", ""))`; null is falsy and counts 0. */
  function EntryCount(e: Entry): (n: nat)
    requires Countable(e)
    ensures "simplifiedChinese" in e && e["simplifiedChinese"].Str? ==> n == CountCjk(e["simplifiedChinese"].s)
    ensures !("simplifiedChinese" in e && e["simplifiedChinese"].Str?) ==> n == 0
  {
    if "simplifiedChinese" in e && e["simplifiedChinese"].Str? then PlainCount(e["simplifiedChinese"].s) else 0
  }

  /** The entry copy with `characterCount` added. */
  function Counted(e: Entry): (r: Entry)
    requires Countable(e)
    ensures "characterCount" in r && r["characterCount"] == Num(EntryCount(e))
    ensures forall key :: key != "characterCount" ==> (key in r <==> key in e)
    ensures forall key :: key != "characterCount" && key in e ==> r[key] == e[key]
  {
    e["characterCount" := Num(EntryCount(e))]
  }

  function Total(data: seq<Entry>): nat
    requires forall k :: 0 <= k < |data| ==> Countable(data[k])
  {
    if data == [] then 0 else Total(data[..|data| - 1]) + EntryCount(data[|data| - 1])
  }

  /** The `characterCount` written into an output entry, 0 when it is not a number. */
  function CountField(e: Entry): int {
    if "characterCount" in e && e["characterCount"].Num? then e["characterCount"].n else 0
  }

  function SumCountFields(out: seq<Entry>): int {
    if out == [] then 0 else SumCountFields(out[..|out| - 1]) + CountField(out[|out| - 1])
  }

  /** `process_hsk_data`: one counted copy per entry, in order, and the running total. */
  method ProcessHskData(data: seq<Entry>) returns (processed: seq<Entry>, total: nat)
    requires forall k :: 0 <= k < |data| ==> Countable(data[k])
    ensures |processed| == |data| && forall k :: 0 <= k < |data| ==> processed[k] == Counted(data[k])
    ensures total == Total(data)
  {
    processed := [];
    total := 0;
    for i := 0 to |data|
      invariant |processed| == i && forall k :: 0 <= k < i ==> processed[k] == Counted(data[k])
      invariant total == Total(data[..i])
    {
      var entry := data[i];
      var processedEntry := entry;
      var simplifiedText := if "simplifiedChinese" in entry && entry["simplifiedChinese"].Str? then entry["simplifiedChinese"].s else "";
      var charCount := PlainCount(simplifiedText);
      processedEntry := processedEntry["characterCount" := Num(charCount)];
      assert data[..i + 1][..i] == data[..i];
      total := total + charCount;
      processed := processed + [processedEntry];
    }
    assert data[..|data|] == data;
  }

  /** The total is the sum of the `characterCount` values in the output. */
  lemma {:induction false} TotalIsSumOfCounts(data: seq<Entry>)
    requires forall k :: 0 <= k < |data| ==> Countable(data[k])
    ensures Total(data) == SumCountFields(seq(|data|, k requires 0 <= k < |data| => Counted(data[k])))
  {
    var out := seq(|data|, k requires 0 <= k < |data| => Counted(data[k]));
    if data != [] {
      var init := data[..|data| - 1];
      TotalIsSumOfCounts(init);
      assert out[..|out| - 1] == seq(|init|, k requires 0 <= k < |init| => Counted(init[k]));
      assert CountField(out[|out| - 1]) == EntryCount(data[|data| - 1]);
    }
  }
}
