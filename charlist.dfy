/**
 * The browse lists. `BrowseScreen` is the mobile character list: a dataset chosen by type
 * (HSK, TOCFL, kanji or sentences) narrowed by level, by the sentence disabled set, by the
 * single/multi character filter and by a case-folded substring search. `ListPage` is the web
 * character list: HSK words or kanji narrowed by level, character filter and search term,
 * then sorted.
 *
 * `String.prototype.toLowerCase` is the parameter `lower` and `String.prototype.localeCompare`
 * the parameter `compare`; both are locale-dependent.
 */
module CharacterList {
  import opened Wrappers
  import opened Collections
  import opened Text
  import opened Sorting
  import opened Practice

  // ---------------------------------------------------------------------------
  // Mobile list
  // ---------------------------------------------------------------------------

  /** `selectedType`: 'hsk', 'tocfl', 'kanji', 'sentences', or anything else (including the empty string). */
  datatype ListType = HskList | TocflList | KanjiList | SentenceList | NoList

  datatype ListWord = ListWord(level: int, id: int, characterCount: int,
    simplifiedChinese: Option<string>, traditionalChinese: Option<string>, pinyin: Option<string>,
    jyutping: Option<string>, hanviet: Option<string>, vietnamese: Option<string>, english: Option<string>)

  datatype ListKanji = ListKanji(level: int, kanji: string, onyomi: Option<string>, kunyomi: Option<string>,
    hanviet: Option<string>, viet: Option<string>, english: Option<string>)

  datatype ListSentence = ListSentence(simplified: Option<string>, traditional: Option<string>,
    pinyin: Option<string>, jyutping: Option<string>, hanviet: Option<string>, viet: Option<string>,
    english: Option<string>)

  /** What the list shows: nothing, or the entries of one type. */
  datatype Listing = NoItems | Words(words: seq<ListWord>) | KanjiItems(kanji: seq<ListKanji>)
                   | Sentences(sentences: seq<ListSentence>)

  function Size(l: Listing): nat {
    match l
    case NoItems => 0
    case Words(ws) => |ws|
    case KanjiItems(ks) => |ks|
    case Sentences(ss) => |ss|
  }

  /** `data.map(item => ({ ...item, level }))`, for words and kanji alike: `tag` sets the level. */
  function Tagged<T>(xs: seq<T>, tag: T -> T): (r: seq<T>)
    ensures |r| == |xs| && forall i :: 0 <= i < |r| ==> r[i] == tag(xs[i])
  {
    seq(|xs|, i requires 0 <= i < |xs| => tag(xs[i]))
  }

  function WordAt(level: int): ListWord -> ListWord {
    (w: ListWord) => w.(level := level)
  }

  function KanjiAt(level: int): ListKanji -> ListKanji {
    (k: ListKanji) => k.(level := level)
  }

  /** `hskData`: level 1 words tagged 1, then level 2 words tagged 2. */
  function HskData(level1: seq<ListWord>, level2: seq<ListWord>): seq<ListWord> {
    Tagged(level1, WordAt(1)) + Tagged(level2, WordAt(2))
  }

  /** The `allKanji` build: grade 1 kanji tagged 1, then grade 2 kanji tagged 2, pushed one at a time. */
  method TagGrades(grade1: seq<ListKanji>, grade2: seq<ListKanji>) returns (flattened: seq<ListKanji>)
    ensures flattened == Tagged(grade1, KanjiAt(1)) + Tagged(grade2, KanjiAt(2))
  {
    flattened := [];
    var i := 0;
    while i < |grade1|
      invariant 0 <= i <= |grade1|
      invariant flattened == Tagged(grade1[..i], KanjiAt(1))
    {
      flattened := flattened + [grade1[i].(level := 1)];
      i := i + 1;
    }
    assert grade1[..i] == grade1;
    var j := 0;
    while j < |grade2|
      invariant 0 <= j <= |grade2|
      invariant flattened == Tagged(grade1, KanjiAt(1)) + Tagged(grade2[..j], KanjiAt(2))
    {
      flattened := flattened + [grade2[j].(level := 2)];
      j := j + 1;
    }
    assert grade2[..j] == grade2;
  }

  function WordsByLevel(data: seq<ListWord>, levels: seq<int>): seq<ListWord> {
    Filter(data, (w: ListWord) => w.level in levels)
  }

  function KanjiByLevel(data: seq<ListKanji>, levels: seq<int>): seq<ListKanji> {
    Filter(data, (k: ListKanji) => k.level in levels)
  }

  /** Selecting level 1 of the combined HSK data gives back exactly the level 1 list, in order. */
  lemma HskLevelOne(level1: seq<ListWord>, level2: seq<ListWord>)
    ensures WordsByLevel(HskData(level1, level2), [1]) == Tagged(level1, WordAt(1))
  {
    var a, b := Tagged(level1, WordAt(1)), Tagged(level2, WordAt(2));
    FilterAppend(a, b, (w: ListWord) => w.level in [1]);
    FilterKeepsAll(a, (w: ListWord) => w.level in [1]);
    FilterNone(b, (w: ListWord) => w.level in [1]);
  }

  /** `getAvailableLevels`: the level buttons each type offers; sentences and unknown types have none. */
  function AvailableLevels(t: ListType): (r: seq<int>)
    ensures NoDup(r) && forall k :: 0 <= k < |r| ==> 1 <= r[k] <= 6
    ensures r == [] <==> t == SentenceList || t == NoList
    ensures r != [] ==> r[0] == 1
  {
    match t
    case HskList => [1, 2]
    case TocflList => [1]
    case KanjiList => [1, 2, 3, 4, 5, 6]
    case _ => []
  }

  /** Selecting every HSK level offered shows the whole combined dataset, in order. */
  lemma AllHskLevelsShowEverything(level1: seq<ListWord>, level2: seq<ListWord>)
    ensures WordsByLevel(HskData(level1, level2), AvailableLevels(HskList)) == HskData(level1, level2)
  {
    var all := HskData(level1, level2);
    forall k | 0 <= k < |all|
      ensures all[k].level in AvailableLevels(HskList)
    {
      if k < |level1| {
        assert all[k] == Tagged(level1, WordAt(1))[k];
      } else {
        assert all[k] == Tagged(level2, WordAt(2))[k - |level1|];
      }
    }
    FilterKeepsAll(all, (w: ListWord) => w.level in AvailableLevels(HskList));
  }

  /** Selecting every kanji grade offered shows the whole flattened list, in order. */
  lemma AllKanjiGradesShowEverything(grade1: seq<ListKanji>, grade2: seq<ListKanji>)
    ensures var all := Tagged(grade1, KanjiAt(1)) + Tagged(grade2, KanjiAt(2));
            KanjiByLevel(all, AvailableLevels(KanjiList)) == all
  {
    var all := Tagged(grade1, KanjiAt(1)) + Tagged(grade2, KanjiAt(2));
    forall k | 0 <= k < |all|
      ensures all[k].level in AvailableLevels(KanjiList)
    {
      if k < |grade1| {
        assert all[k] == Tagged(grade1, KanjiAt(1))[k];
      } else {
        assert all[k] == Tagged(grade2, KanjiAt(2))[k - |grade1|];
      }
    }
    FilterKeepsAll(all, (k: ListKanji) => k.level in AvailableLevels(KanjiList));
  }

  /** The character filter of the HSK and TOCFL lists; 'all' leaves the list as it is. */
  function CharacterStage(data: seq<ListWord>, f: CharacterFilter): (r: seq<ListWord>)
    ensures forall w :: w in r <==> w in data && Keeps(f, w.characterCount)
  {
    if f == AllWords then data else Filter(data, (w: ListWord) => Keeps(f, w.characterCount))
  }

  function WordFields(w: ListWord): seq<Option<string>> {
    [w.simplifiedChinese, w.traditionalChinese, w.pinyin, w.jyutping, w.hanviet, w.vietnamese, w.english]
  }

  function KanjiFields(k: ListKanji): seq<Option<string>> {
    [Some(k.kanji), k.onyomi, k.kunyomi, k.hanviet, k.viet, k.english]
  }

  function SentenceFields(s: ListSentence): seq<Option<string>> {
    [s.simplified, s.traditional, s.pinyin, s.jyutping, s.hanviet, s.viet, s.english]
  }

  /** `(item.field || '').toLowerCase().includes(q)` for at least one field. */
  predicate AnyFieldContains(fields: seq<Option<string>>, q: string, lower: string -> string) {
    exists k :: 0 <= k < |fields| && Contains(lower(fields[k].GetOr("")), q)
  }

  /** What the search keeps: everything for a blank query, else the items with a matching field. */
  predicate SearchKeeps(query: string, fields: seq<Option<string>>, lower: string -> string) {
    Trim(query, JsSpace) == [] || AnyFieldContains(fields, Trim(lower(query), JsSpace), lower)
  }

  /** The search stage: the query is trimmed, then matched lower-cased and trimmed. */
  function Search<T(==,!new)>(data: seq<T>, query: string, fields: T -> seq<Option<string>>, lower: string -> string): (r: seq<T>)
    ensures forall x :: x in r <==> x in data && SearchKeeps(query, fields(x), lower)
    ensures Trim(query, JsSpace) == [] ==> r == data
  {
    if Trim(query, JsSpace) == [] then data
    else Filter(data, (x: T) => AnyFieldContains(fields(x), Trim(lower(query), JsSpace), lower))
  }

  /** The HSK branch of `getFilteredData`: level, character filter, then search. */
  function HskView(levels: seq<int>, query: string, f: CharacterFilter, hsk: seq<ListWord>,
                   lower: string -> string): seq<ListWord> {
    Search(CharacterStage(WordsByLevel(hsk, levels), f), query, WordFields, lower)
  }

  /** The TOCFL branch: the whole dataset when level 1 is selected, else nothing. */
  function TocflView(levels: seq<int>, query: string, f: CharacterFilter, tocfl: seq<ListWord>,
                     lower: string -> string): seq<ListWord> {
    if 1 in levels then Search(CharacterStage(tocfl, f), query, WordFields, lower) else []
  }

  /** The kanji branch: grade, then search; no character filter. */
  function KanjiView(levels: seq<int>, query: string, kanji: seq<ListKanji>, lower: string -> string): seq<ListKanji> {
    Search(KanjiByLevel(kanji, levels), query, KanjiFields, lower)
  }

  /** The sentence branch: the enabled positions, then search; no level. */
  function SentenceView(query: string, sentences: seq<ListSentence>, disabled: set<string>,
                        lower: string -> string): seq<ListSentence> {
    Search(SentencePool(sentences, disabled), query, SentenceFields, lower)
  }

  /** `getFilteredData`. */
  function FilteredData(t: ListType, levels: seq<int>, query: string, f: CharacterFilter,
                        hsk: seq<ListWord>, tocfl: seq<ListWord>, kanji: seq<ListKanji>,
                        sentences: seq<ListSentence>, disabledSentences: set<string>,
                        lower: string -> string): Listing
  {
    match t
    case NoList => NoItems
    case HskList => if levels == [] then Words([]) else Words(HskView(levels, query, f, hsk, lower))
    case TocflList => if levels == [] then Words([]) else Words(TocflView(levels, query, f, tocfl, lower))
    case KanjiList => if levels == [] then KanjiItems([]) else KanjiItems(KanjiView(levels, query, kanji, lower))
    case SentenceList => Sentences(SentenceView(query, sentences, disabledSentences, lower))
  }

  /** Every type except sentences needs a level: with none selected the list is empty. */
  lemma NoLevelsNoItems(t: ListType, query: string, f: CharacterFilter, hsk: seq<ListWord>, tocfl: seq<ListWord>,
                        kanji: seq<ListKanji>, sentences: seq<ListSentence>, disabled: set<string>, lower: string -> string)
    requires t != SentenceList
    ensures Size(FilteredData(t, [], query, f, hsk, tocfl, kanji, sentences, disabled, lower)) == 0
  {
  }

  /** The HSK list: the words of a selected level that pass the character filter and the search. */
  lemma HskListing(levels: seq<int>, query: string, f: CharacterFilter, hsk: seq<ListWord>, tocfl: seq<ListWord>,
                   kanji: seq<ListKanji>, sentences: seq<ListSentence>, disabled: set<string>, lower: string -> string)
    ensures var r := FilteredData(HskList, levels, query, f, hsk, tocfl, kanji, sentences, disabled, lower);
      r.Words? && forall w :: w in r.words <==>
        w in hsk && w.level in levels && Keeps(f, w.characterCount) && SearchKeeps(query, WordFields(w), lower)
  {
  }

  /** The TOCFL list: the whole dataset exactly when level 1 is selected, then the same two filters. */
  lemma TocflListing(levels: seq<int>, query: string, f: CharacterFilter, hsk: seq<ListWord>, tocfl: seq<ListWord>,
                     kanji: seq<ListKanji>, sentences: seq<ListSentence>, disabled: set<string>, lower: string -> string)
    ensures var r := FilteredData(TocflList, levels, query, f, hsk, tocfl, kanji, sentences, disabled, lower);
      r.Words? && forall w :: w in r.words <==>
        1 in levels && w in tocfl && Keeps(f, w.characterCount) && SearchKeeps(query, WordFields(w), lower)
  {
  }

  /** The kanji list: kanji of a selected grade matching the search; no character filter. */
  lemma KanjiListing(levels: seq<int>, query: string, f: CharacterFilter, hsk: seq<ListWord>, tocfl: seq<ListWord>,
                     kanji: seq<ListKanji>, sentences: seq<ListSentence>, disabled: set<string>, lower: string -> string)
    ensures var r := FilteredData(KanjiList, levels, query, f, hsk, tocfl, kanji, sentences, disabled, lower);
      r.KanjiItems? && forall k :: k in r.kanji <==>
        k in kanji && k.level in levels && SearchKeeps(query, KanjiFields(k), lower)
  {
  }

  /** The sentence list: a sentence stays iff its position's key is not disabled and it matches the search. */
  lemma SentenceListing(levels: seq<int>, query: string, f: CharacterFilter, hsk: seq<ListWord>, tocfl: seq<ListWord>,
                        kanji: seq<ListKanji>, sentences: seq<ListSentence>, disabled: set<string>, lower: string -> string)
    ensures var r := FilteredData(SentenceList, levels, query, f, hsk, tocfl, kanji, sentences, disabled, lower);
      r.Sentences? && forall s :: s in r.sentences <==>
        SearchKeeps(query, SentenceFields(s), lower)
        && exists i :: 0 <= i < |sentences| && SentenceKey(i) !in disabled && sentences[i] == s
  {
    forall s
      ensures s in SentencePool(sentences, disabled)
          <==> exists i :: 0 <= i < |sentences| && SentenceKey(i) !in disabled && sentences[i] == s
    {
      SentencePoolMembers(sentences, disabled, s);
    }
  }

  /** Two sentence records with the same simplified and traditional text. */
  predicate SameText(a: ListSentence, b: ListSentence) {
    a.simplified == b.simplified && a.traditional == b.traditional
  }

  /**
   * The index the sentence list renders a listed sentence with: the first data position with the
   * same simplified and traditional text, whichever copy is listed.
   */
  function RowIndex(sentences: seq<ListSentence>, item: ListSentence): int {
    FindIndex(sentences, (s: ListSentence) => SameText(s, item))
  }

  /**
   * The rows the sentence list should carry: the enabled data positions whose sentence matches
   * the search, each the own position of the sentence it shows.
   */
  function SentenceRows(query: string, sentences: seq<ListSentence>, disabled: set<string>,
                        lower: string -> string): (rows: seq<nat>)
    ensures forall i: nat :: i in rows <==>
      i < |sentences| && SentenceKey(i) !in disabled && SearchKeeps(query, SentenceFields(sentences[i]), lower)
  {
    Filter(EnabledIndices(|sentences|, disabled),
           (i: nat) => i < |sentences| && SearchKeeps(query, SentenceFields(sentences[i]), lower))
  }

  /** The rows show exactly the listed sentences: each listed sentence stands at some row's position, and no other does. */
  lemma SentenceRowsShowListing(query: string, sentences: seq<ListSentence>, disabled: set<string>,
                                lower: string -> string, s: ListSentence)
    ensures s in SentenceView(query, sentences, disabled, lower)
        <==> exists i :: i in SentenceRows(query, sentences, disabled, lower) && sentences[i] == s
  {
    SentencePoolMembers(sentences, disabled, s);
  }

  /**
   * Pressing the button of a row keyed by its own position hides that position, shows it as
   * enabled beforehand, and leaves every other row where it was.
   */
  lemma ToggleOwnRowHidesIt(query: string, sentences: seq<ListSentence>, disabled: set<string>,
                            lower: string -> string, i: nat)
    requires i in SentenceRows(query, sentences, disabled, lower)
    ensures SentenceKey(i) !in disabled
    ensures i !in SentenceRows(query, sentences, Flip(disabled, SentenceKey(i)), lower)
    ensures forall j: nat :: j != i ==>
      (j in SentenceRows(query, sentences, Flip(disabled, SentenceKey(i)), lower)
       <==> j in SentenceRows(query, sentences, disabled, lower))
  {
    forall j: nat | j != i
      ensures SentenceKey(j) != SentenceKey(i)
    {
      SentenceKeyInjective(i, j);
    }
  }

  /** `Hello` as a browse-list record, with no other field. */
  const HelloRow: ListSentence := ListSentence(Some(Hello.simplified), Some(Hello.traditional), None, None, None, None, None)

  /**
   * The sentence list as written: with `HelloRow` at positions 0 and 1 and position 0 disabled,
   * the copy at position 1 is listed, but it is rendered with index 0, so it shows as disabled
   * and its button re-enables position 0 while position 1 stays listed.
   */
  lemma BrowseDuplicateToggleMissesListedCopy(lower: string -> string)
    ensures var sentences, before := [HelloRow, HelloRow], {SentenceKey(0)};
      SentenceView("", sentences, before, lower) == [HelloRow]
      && 1 in SentenceRows("", sentences, before, lower) && 0 !in SentenceRows("", sentences, before, lower)
      && RowIndex(sentences, HelloRow) == 0 && SentenceKey(RowIndex(sentences, HelloRow)) in before
      && Flip(before, SentenceKey(RowIndex(sentences, HelloRow))) == {}
      && 1 in SentenceRows("", sentences, Flip(before, SentenceKey(RowIndex(sentences, HelloRow))), lower)
  {
    var sentences, before := [HelloRow, HelloRow], {SentenceKey(0)};
    OnlySecondEnabled();
    assert Trim("", JsSpace) == [];
    SentenceKeyInjective(0, 1);
  }

  /** With no character filter and a blank query the HSK list keeps the dataset order. */
  lemma UnfilteredHsk(levels: seq<int>, query: string, hsk: seq<ListWord>, tocfl: seq<ListWord>,
                      kanji: seq<ListKanji>, sentences: seq<ListSentence>, disabled: set<string>, lower: string -> string)
    requires levels != [] && Trim(query, JsSpace) == []
    ensures FilteredData(HskList, levels, query, AllWords, hsk, tocfl, kanji, sentences, disabled, lower)
            == Words(WordsByLevel(hsk, levels))
  {
    var byLevel := WordsByLevel(hsk, levels);
    assert CharacterStage(byLevel, AllWords) == byLevel;
    assert Search(byLevel, query, WordFields, lower) == byLevel;
  }

  /** With no character filter and a blank query the TOCFL list is the dataset or nothing. */
  lemma UnfilteredTocfl(levels: seq<int>, query: string, hsk: seq<ListWord>, tocfl: seq<ListWord>,
                        kanji: seq<ListKanji>, sentences: seq<ListSentence>, disabled: set<string>, lower: string -> string)
    requires levels != [] && Trim(query, JsSpace) == []
    ensures FilteredData(TocflList, levels, query, AllWords, hsk, tocfl, kanji, sentences, disabled, lower)
            == Words(if 1 in levels then tocfl else [])
  {
    assert CharacterStage(tocfl, AllWords) == tocfl;
    assert Search(tocfl, query, WordFields, lower) == tocfl;
  }

  /** With a blank query the kanji list keeps the dataset order. */
  lemma UnfilteredKanji(levels: seq<int>, query: string, f: CharacterFilter, hsk: seq<ListWord>,
                        tocfl: seq<ListWord>, kanji: seq<ListKanji>, sentences: seq<ListSentence>,
                        disabled: set<string>, lower: string -> string)
    requires levels != [] && Trim(query, JsSpace) == []
    ensures FilteredData(KanjiList, levels, query, f, hsk, tocfl, kanji, sentences, disabled, lower)
            == KanjiItems(KanjiByLevel(kanji, levels))
  {
    assert KanjiView(levels, query, kanji, lower) == KanjiByLevel(kanji, levels);
  }

  /** With a blank query the sentence list is the pool in the dataset order. */
  lemma UnfilteredSentences(levels: seq<int>, query: string, f: CharacterFilter, hsk: seq<ListWord>,
                            tocfl: seq<ListWord>, kanji: seq<ListKanji>, sentences: seq<ListSentence>,
                            disabled: set<string>, lower: string -> string)
    requires Trim(query, JsSpace) == []
    ensures FilteredData(SentenceList, levels, query, f, hsk, tocfl, kanji, sentences, disabled, lower)
            == Sentences(SentencePool(sentences, disabled))
  {
    var pool := SentencePool(sentences, disabled);
    assert Search(pool, query, SentenceFields, lower) == pool;
  }

  /** The disabled-set key of an HSK row, `${item.level}-${item.id}`. */
  function HskKey(level: int, id: int): string {
    IntToString(level) + "-" + IntToString(id)
  }

  /** Distinct (level, id) pairs get distinct keys. */
  lemma HskKeyInjective(l1: nat, i1: nat, l2: nat, i2: nat)
    ensures HskKey(l1, i1) == HskKey(l2, i2) ==> l1 == l2 && i1 == i2
  {
    NumberPairInjective(l1, i1, l2, i2, '-');
  }

  class BrowseScreen {
    const hskData: seq<ListWord>
    const tocflData: seq<ListWord>
    const allKanji: seq<ListKanji>
    const sentencesData: seq<ListSentence>
    const lower: string -> string

    var selectedType: ListType
    var selectedLevels: seq<int>
    var searchQuery: string
    var characterFilter: CharacterFilter
    var disabledHsk: set<string>
    var disabledTocfl: set<int>
    var disabledKanji: set<string>
    var disabledSentences: set<string>

    ghost predicate Valid()
      reads this
    {
      NoDup(selectedLevels)
    }

    constructor (level1: seq<ListWord>, level2: seq<ListWord>, tocfl: seq<ListWord>,
                 grade1: seq<ListKanji>, grade2: seq<ListKanji>, sentences: seq<ListSentence>,
                 lower: string -> string)
      ensures Valid()
      ensures hskData == HskData(level1, level2) && tocflData == tocfl
      ensures allKanji == Tagged(grade1, KanjiAt(1)) + Tagged(grade2, KanjiAt(2))
      ensures sentencesData == sentences && this.lower == lower
      ensures selectedType == HskList && selectedLevels == [1] && searchQuery == "" && characterFilter == AllWords
      ensures disabledHsk == {} && disabledTocfl == {} && disabledKanji == {} && disabledSentences == {}
    {
      hskData := HskData(level1, level2);
      tocflData := tocfl;
      var flattened := TagGrades(grade1, grade2);
      allKanji := flattened;
      sentencesData := sentences;
      this.lower := lower;
      selectedType := HskList;
      selectedLevels := [1];
      searchQuery := "";
      characterFilter := AllWords;
      disabledHsk := {};
      disabledTocfl := {};
      disabledKanji := {};
      disabledSentences := {};
    }

    function Listing(): Listing
      reads this
    {
      FilteredData(selectedType, selectedLevels, searchQuery, characterFilter, hskData, tocflData,
                   allKanji, sentencesData, disabledSentences, lower)
    }

    /** `toggleLevel` (splice/push). */
    method ToggleLevel(level: int)
      requires Valid()
      modifies this
      ensures Valid()
      ensures selectedLevels == ToggleFirst(old(selectedLevels), level)
      ensures level in selectedLevels <==> level !in old(selectedLevels)
      ensures forall l :: l != level ==> (l in selectedLevels <==> l in old(selectedLevels))
      ensures selectedType == old(selectedType) && searchQuery == old(searchQuery)
      ensures characterFilter == old(characterFilter)
      ensures disabledHsk == old(disabledHsk) && disabledTocfl == old(disabledTocfl)
      ensures disabledKanji == old(disabledKanji) && disabledSentences == old(disabledSentences)
    {
      ToggleFirstFlips(selectedLevels, level);
      selectedLevels := ToggleFirst(selectedLevels, level);
    }

    /** `handleTypeSelect`: level 1 for the types with levels, none for the others; filter back to 'all'. */
    method SelectType(t: ListType)
      requires Valid()
      modifies this
      ensures Valid()
      ensures selectedType == t && characterFilter == AllWords
      ensures selectedLevels == if t == HskList || t == TocflList || t == KanjiList then [1] else []
      ensures selectedLevels == if AvailableLevels(t) == [] then [] else AvailableLevels(t)[..1]
      ensures searchQuery == old(searchQuery)
      ensures disabledHsk == old(disabledHsk) && disabledTocfl == old(disabledTocfl)
      ensures disabledKanji == old(disabledKanji) && disabledSentences == old(disabledSentences)
    {
      selectedType := t;
      if t == HskList {
        selectedLevels := [1];
      } else if t == TocflList {
        selectedLevels := [1];
      } else if t == KanjiList {
        selectedLevels := [1];
      } else {
        selectedLevels := [];
      }
      characterFilter := AllWords;
      if t == SentenceList {
        selectedLevels := [];
      }
    }

    /** `toggleHSKDisabled`: only marks the row; the list itself does not change. */
    method ToggleHskDisabled(key: string)
      requires Valid()
      modifies this
      ensures Valid()
      ensures disabledHsk == Flip(old(disabledHsk), key)
      ensures Listing() == old(Listing())
      ensures selectedType == old(selectedType) && selectedLevels == old(selectedLevels)
      ensures searchQuery == old(searchQuery) && characterFilter == old(characterFilter)
      ensures disabledTocfl == old(disabledTocfl) && disabledKanji == old(disabledKanji)
      ensures disabledSentences == old(disabledSentences)
    {
      disabledHsk := Flip(disabledHsk, key);
    }

    /** `toggleTOCFLDisabled`: only marks the row. */
    method ToggleTocflDisabled(id: int)
      requires Valid()
      modifies this
      ensures Valid()
      ensures disabledTocfl == Flip(old(disabledTocfl), id)
      ensures Listing() == old(Listing())
      ensures selectedType == old(selectedType) && selectedLevels == old(selectedLevels)
      ensures searchQuery == old(searchQuery) && characterFilter == old(characterFilter)
      ensures disabledHsk == old(disabledHsk) && disabledKanji == old(disabledKanji)
      ensures disabledSentences == old(disabledSentences)
    {
      disabledTocfl := Flip(disabledTocfl, id);
    }

    /** `toggleKanjiDisabled`: only marks the row. */
    method ToggleKanjiDisabled(glyph: string)
      requires Valid()
      modifies this
      ensures Valid()
      ensures disabledKanji == Flip(old(disabledKanji), glyph)
      ensures Listing() == old(Listing())
      ensures selectedType == old(selectedType) && selectedLevels == old(selectedLevels)
      ensures searchQuery == old(searchQuery) && characterFilter == old(characterFilter)
      ensures disabledHsk == old(disabledHsk) && disabledTocfl == old(disabledTocfl)
      ensures disabledSentences == old(disabledSentences)
    {
      disabledKanji := Flip(disabledKanji, glyph);
    }

    /** `toggleSentenceDisabled`: unlike the other three, this one removes the sentence from the list. */
    method ToggleSentenceDisabled(index: int)
      requires Valid()
      modifies this
      ensures Valid()
      ensures disabledSentences == Flip(old(disabledSentences), SentenceKey(index))
      ensures selectedType == old(selectedType) && selectedLevels == old(selectedLevels)
      ensures searchQuery == old(searchQuery) && characterFilter == old(characterFilter)
      ensures disabledHsk == old(disabledHsk) && disabledTocfl == old(disabledTocfl)
      ensures disabledKanji == old(disabledKanji)
    {
      disabledSentences := Flip(disabledSentences, SentenceKey(index));
    }

    /**
     * The mount-time load of the four disabled sets, in the order HSK, TOCFL, kanji, sentences,
     * inside one `try`: a stored array replaces its set, a missing entry keeps it, and an entry
     * that does not parse abandons that set and every one after it.
     */
    method Load(hsk: Stored<string>, tocfl: Stored<int>, kanji: Stored<string>, sentences: Stored<string>)
      requires Valid()
      modifies this
      ensures Valid()
      ensures disabledHsk == if hsk.StoredKeys? then set k | k in hsk.keys else old(disabledHsk)
      ensures disabledTocfl == if !hsk.Unreadable? && tocfl.StoredKeys? then set k | k in tocfl.keys
                               else old(disabledTocfl)
      ensures disabledKanji == if !hsk.Unreadable? && !tocfl.Unreadable? && kanji.StoredKeys?
                               then set k | k in kanji.keys else old(disabledKanji)
      ensures disabledSentences == if !hsk.Unreadable? && !tocfl.Unreadable? && !kanji.Unreadable?
                                      && sentences.StoredKeys?
                                   then set k | k in sentences.keys else old(disabledSentences)
      ensures selectedType == old(selectedType) && selectedLevels == old(selectedLevels)
      ensures searchQuery == old(searchQuery) && characterFilter == old(characterFilter)
    {
      if hsk.Unreadable? {
        return;
      }
      if hsk.StoredKeys? {
        disabledHsk := set k | k in hsk.keys;
      }
      if tocfl.Unreadable? {
        return;
      }
      if tocfl.StoredKeys? {
        disabledTocfl := set k | k in tocfl.keys;
      }
      if kanji.Unreadable? {
        return;
      }
      if kanji.StoredKeys? {
        disabledKanji := set k | k in kanji.keys;
      }
      if sentences.StoredKeys? {
        disabledSentences := set k | k in sentences.keys;
      }
    }

    /** `clearFilters`. */
    method ClearFilters()
      requires Valid()
      modifies this
      ensures Valid()
      ensures searchQuery == "" && characterFilter == AllWords && selectedLevels == [1]
      ensures selectedType == old(selectedType)
      ensures disabledHsk == old(disabledHsk) && disabledTocfl == old(disabledTocfl)
      ensures disabledKanji == old(disabledKanji) && disabledSentences == old(disabledSentences)
    {
      searchQuery := "";
      characterFilter := AllWords;
      selectedLevels := [1];
    }

    method SetSearchQuery(q: string)
      requires Valid()
      modifies this
      ensures Valid()
      ensures searchQuery == q
      ensures selectedType == old(selectedType) && selectedLevels == old(selectedLevels)
      ensures characterFilter == old(characterFilter)
      ensures disabledHsk == old(disabledHsk) && disabledTocfl == old(disabledTocfl)
      ensures disabledKanji == old(disabledKanji) && disabledSentences == old(disabledSentences)
    {
      searchQuery := q;
    }

    method SetCharacterFilter(f: CharacterFilter)
      requires Valid()
      modifies this
      ensures Valid()
      ensures characterFilter == f
      ensures selectedType == old(selectedType) && selectedLevels == old(selectedLevels)
      ensures searchQuery == old(searchQuery)
      ensures disabledHsk == old(disabledHsk) && disabledTocfl == old(disabledTocfl)
      ensures disabledKanji == old(disabledKanji) && disabledSentences == old(disabledSentences)
    {
      characterFilter := f;
    }
  }

  // ---------------------------------------------------------------------------
  // Web list
  // ---------------------------------------------------------------------------

  /** `selectedMode`: 'chinese', or anything else, which shows kanji. */
  datatype PageMode = ChineseMode | KanjiMode

  /** `sortBy`: 'character', 'pinyin', 'english', or anything else, which sorts by id. */
  datatype SortKey = ById | ByCharacter | ByPinyin | ByEnglish

  /** An HSK word or a kanji; fields the item does not have are `None`. */
  datatype PageItem = PageItem(id: Option<int>, characterCount: int,
    simplifiedChinese: Option<string>, traditionalChinese: Option<string>, pinyin: Option<string>,
    english: Option<string>, vietnamese: Option<string>, jyutping: Option<string>,
    kanji: Option<string>, kunyomi: Option<string>, onyomi: Option<string>)

  /** The level stage: Chinese mode holds level 1 only, so it is everything or nothing. */
  function LevelStage(mode: PageMode, levels: seq<int>, data: seq<PageItem>): seq<PageItem> {
    if mode == ChineseMode then Filter(data, (x: PageItem) => 1 in levels) else data
  }

  lemma ChineseLevels(levels: seq<int>, data: seq<PageItem>)
    ensures LevelStage(ChineseMode, levels, data) == if 1 in levels then data else []
  {
    if 1 in levels {
      FilterKeepsAll(data, (x: PageItem) => 1 in levels);
    } else {
      FilterNone(data, (x: PageItem) => 1 in levels);
    }
  }

  /** The character filter, applied in Chinese mode only. */
  function PageCharacterStage(mode: PageMode, f: CharacterFilter, data: seq<PageItem>): (r: seq<PageItem>)
    ensures forall x :: x in r <==> x in data && (mode == ChineseMode ==> Keeps(f, x.characterCount))
  {
    if mode == ChineseMode && f != AllWords then Filter(data, (x: PageItem) => Keeps(f, x.characterCount)) else data
  }

  /** The nine searched fields, in the order they are tried. */
  function PageFields(x: PageItem): seq<Option<string>> {
    [x.simplifiedChinese, x.traditionalChinese, x.pinyin, x.english, x.vietnamese, x.jyutping,
     x.kanji, x.kunyomi, x.onyomi]
  }

  /** `item.field?.toLowerCase().includes(q)` for some field: an absent field never matches. */
  predicate PresentFieldContains(fields: seq<Option<string>>, q: string, lower: string -> string) {
    exists k :: 0 <= k < |fields| && fields[k].Some? && Contains(lower(fields[k].value), q)
  }

  /** The search stage; the term is not trimmed, and only the empty term is skipped. */
  function TermStage(term: string, data: seq<PageItem>, lower: string -> string): (r: seq<PageItem>)
    ensures forall x :: x in r <==> x in data && (term == "" || PresentFieldContains(PageFields(x), lower(term), lower))
  {
    if term == "" then data else Filter(data, (x: PageItem) => PresentFieldContains(PageFields(x), lower(term), lower))
  }

  /** JavaScript `a || b` on a string that may be absent: the empty string counts as absent. */
  function OrElse(a: Option<string>, b: string): (r: string)
    ensures a.Some? && a.value != "" ==> r == a.value
    ensures (a.None? || a.value == "") ==> r == b
  {
    if a.Some? && a.value != "" then a.value else b
  }

  function CharacterKey(x: PageItem): string {
    OrElse(x.simplifiedChinese, OrElse(x.kanji, ""))
  }

  /** `a.id - b.id`; when an id is missing the difference is NaN, which the sort reads as 0. */
  function IdDifference(a: PageItem, b: PageItem): int {
    if a.id.Some? && b.id.Some? then a.id.value - b.id.value else 0
  }

  /** The comparator passed to `data.sort`. */
  function Comparator(sortBy: SortKey, compare: (string, string) -> int): (PageItem, PageItem) -> int {
    match sortBy
    case ById => IdDifference
    case ByCharacter => (a: PageItem, b: PageItem) => compare(CharacterKey(a), CharacterKey(b))
    case ByPinyin => (a: PageItem, b: PageItem) => compare(a.pinyin.GetOr(""), b.pinyin.GetOr(""))
    case ByEnglish => (a: PageItem, b: PageItem) => compare(a.english.GetOr(""), b.english.GetOr(""))
  }

  /** The list before sorting. */
  function Unsorted(mode: PageMode, levels: seq<int>, f: CharacterFilter, term: string,
                    data: seq<PageItem>, lower: string -> string): seq<PageItem> {
    TermStage(term, PageCharacterStage(mode, f, LevelStage(mode, levels, data)), lower)
  }

  /** Sorting only reorders: the result holds exactly the filtered items. */
  lemma SortedListIsFilteredList(mode: PageMode, levels: seq<int>, f: CharacterFilter, term: string,
                                 data: seq<PageItem>, lower: string -> string, sortBy: SortKey,
                                 compare: (string, string) -> int)
    ensures var u := Unsorted(mode, levels, f, term, data, lower);
      multiset(Sort(u, Comparator(sortBy, compare))) == multiset(u)
  {
  }

  /** When every item has an id, the default order is ascending id. */
  lemma {:induction false} IdSortAscending(s: seq<PageItem>, compare: (string, string) -> int)
    requires forall k :: 0 <= k < |s| ==> s[k].id.Some?
    ensures var r := Sort(s, Comparator(ById, compare));
      (forall k :: 0 <= k < |r| ==> r[k].id.Some?)
      && forall i, j :: 0 <= i < j < |r| ==> r[i].id.value <= r[j].id.value
  {
    assert Comparator(ById, compare) == IdDifference;
    var r := Sort(s, IdDifference);
    IdDifferenceAntisymmetric(s);
    SortSorted(s, IdDifference);
    SortKeepsIds(s, r);
    IdDifferenceTransitive(r);
    forall i, j | 0 <= i < j < |r|
      ensures r[i].id.value <= r[j].id.value
    {
      SortedPairwise(r, IdDifference, i, j);
    }
  }

  lemma IdDifferenceAntisymmetric(s: seq<PageItem>)
    ensures Antisymmetric(IdDifference, s)
  {
    forall a, b | a in s && b in s && IdDifference(a, b) >= 0
      ensures IdDifference(b, a) <= 0
    {
    }
  }

  lemma SortKeepsIds(s: seq<PageItem>, r: seq<PageItem>)
    requires forall k :: 0 <= k < |s| ==> s[k].id.Some?
    requires multiset(r) == multiset(s)
    ensures forall k :: 0 <= k < |r| ==> r[k].id.Some?
  {
    forall k | 0 <= k < |r|
      ensures r[k].id.Some?
    {
      InMultiset(r[k], r, s);
    }
  }

  /** Once every item has an id, the id difference orders them transitively. */
  lemma IdDifferenceTransitive(r: seq<PageItem>)
    requires forall k :: 0 <= k < |r| ==> r[k].id.Some?
    ensures Transitive(IdDifference, r)
  {
    forall a, b, c | a in r && b in r && c in r && IdDifference(a, b) <= 0 && IdDifference(b, c) <= 0
      ensures IdDifference(a, c) <= 0
    {
      assert a.id.Some? && b.id.Some? && c.id.Some?;
    }
  }

  /** Kanji carry no id, so the default sort leaves them in grade order. */
  lemma IdSortWithoutIds(s: seq<PageItem>, compare: (string, string) -> int)
    requires forall k :: 0 <= k < |s| ==> s[k].id.None?
    ensures Sort(s, Comparator(ById, compare)) == s
  {
    SortAllEqual(s, IdDifference);
  }

  /** With a comparator whose sign flips on swapped arguments, the string sorts order by their key. */
  lemma StringSortOrdered(s: seq<PageItem>, sortBy: SortKey, compare: (string, string) -> int)
    requires sortBy != ById
    requires forall a, b :: compare(a, b) >= 0 ==> compare(b, a) <= 0
    ensures Sorted(Sort(s, Comparator(sortBy, compare)), Comparator(sortBy, compare))
  {
    var cmp := Comparator(sortBy, compare);
    forall a, b | a in s && b in s && cmp(a, b) >= 0
      ensures cmp(b, a) <= 0
    {
      if sortBy == ByCharacter {
        assert compare(CharacterKey(a), CharacterKey(b)) >= 0;
      } else if sortBy == ByPinyin {
        assert compare(a.pinyin.GetOr(""), b.pinyin.GetOr("")) >= 0;
      } else {
        assert compare(a.english.GetOr(""), b.english.GetOr("")) >= 0;
      }
    }
    SortSorted(s, cmp);
  }

  /** `getReadingDisplay`: pinyin for words, `${onyomi || ''} ${kunyomi || ''}` trimmed for kanji. */
  function ReadingDisplay(mode: PageMode, x: PageItem): Option<string> {
    if mode == ChineseMode then x.pinyin
    else Some(Trim(x.onyomi.GetOr("") + " " + x.kunyomi.GetOr(""), JsSpace))
  }

  /** Two readings without surrounding space are shown separated by one space; one missing reading leaves the other alone. */
  lemma ReadingDisplayParts(x: PageItem)
    requires forall k :: 0 <= k < |x.onyomi.GetOr("")| ==> !JsSpace(x.onyomi.GetOr("")[k])
    requires forall k :: 0 <= k < |x.kunyomi.GetOr("")| ==> !JsSpace(x.kunyomi.GetOr("")[k])
    ensures x.onyomi.GetOr("") != "" && x.kunyomi.GetOr("") != "" ==>
      ReadingDisplay(KanjiMode, x) == Some(x.onyomi.value + " " + x.kunyomi.value)
    ensures x.kunyomi.GetOr("") == "" ==> ReadingDisplay(KanjiMode, x) == Some(x.onyomi.GetOr(""))
    ensures x.onyomi.GetOr("") == "" ==> ReadingDisplay(KanjiMode, x) == Some(x.kunyomi.GetOr(""))
  {
    var on, kun := x.onyomi.GetOr(""), x.kunyomi.GetOr("");
    var s := on + " " + kun;
    if on == "" && kun == "" {
      assert s == " " && s[1..] == "";
    } else if kun == "" {
      assert s == on + " " && s[0] == on[0];
      assert s[..|s| - 1] == on;
      assert TrimStart(s, JsSpace) == s;
      assert TrimEnd(on, JsSpace) == on;
    } else if on == "" {
      assert s == " " + kun && s[1..] == kun;
      assert TrimStart(kun, JsSpace) == kun;
      assert TrimEnd(kun, JsSpace) == kun;
    } else {
      assert s[0] == on[0] && s[|s| - 1] == kun[|kun| - 1];
      assert TrimStart(s, JsSpace) == s;
      assert TrimEnd(s, JsSpace) == s;
    }
  }

  class ListPage {
    const hskData: seq<PageItem>
    const kanjiData: map<int, seq<PageItem>>
    const lower: string -> string
    const compare: (string, string) -> int

    var selectedMode: PageMode
    var selectedLevels: seq<int>
    var characterFilter: CharacterFilter
    var searchTerm: string
    var sortBy: SortKey

    ghost predicate Valid()
      reads this
    {
      NoDup(selectedLevels)
    }

    constructor (hskData: seq<PageItem>, kanjiData: map<int, seq<PageItem>>, lower: string -> string,
                 compare: (string, string) -> int)
      ensures Valid()
      ensures this.hskData == hskData && this.kanjiData == kanjiData && this.lower == lower && this.compare == compare
      ensures selectedMode == ChineseMode && selectedLevels == [1] && characterFilter == AllWords
      ensures searchTerm == "" && sortBy == ById
    {
      this.hskData := hskData;
      this.kanjiData := kanjiData;
      this.lower := lower;
      this.compare := compare;
      selectedMode := ChineseMode;
      selectedLevels := [1];
      characterFilter := AllWords;
      searchTerm := "";
      sortBy := ById;
    }

    /** `getData`: the HSK words, or kanji grades 1 to 6 flattened in grade order. */
    method GetData() returns (data: seq<PageItem>)
      ensures data == if selectedMode == ChineseMode then hskData else Range(kanjiData, 1, 6)
    {
      if selectedMode == ChineseMode {
        data := hskData;
      } else {
        data := ConcatRange(kanjiData, 1, 6);
      }
    }

    /** `filteredData`: the filter stages, then the sort chosen by `sortBy`. */
    method FilteredData() returns (r: seq<PageItem>)
      ensures var data := if selectedMode == ChineseMode then hskData else Range(kanjiData, 1, 6);
        var u := Unsorted(selectedMode, selectedLevels, characterFilter, searchTerm, data, lower);
        r == Sort(u, Comparator(sortBy, compare)) && multiset(r) == multiset(u)
    {
      var data := GetData();
      data := LevelStage(selectedMode, selectedLevels, data);
      data := PageCharacterStage(selectedMode, characterFilter, data);
      data := TermStage(searchTerm, data, lower);
      r := Sort(data, Comparator(sortBy, compare));
    }

    /** `toggleLevel` (splice/push). */
    method ToggleLevel(level: int)
      requires Valid()
      modifies this
      ensures Valid()
      ensures selectedLevels == ToggleFirst(old(selectedLevels), level)
      ensures level in selectedLevels <==> level !in old(selectedLevels)
      ensures selectedMode == old(selectedMode) && characterFilter == old(characterFilter)
      ensures searchTerm == old(searchTerm) && sortBy == old(sortBy)
    {
      ToggleFirstFlips(selectedLevels, level);
      selectedLevels := ToggleFirst(selectedLevels, level);
    }

    /** The mode buttons: only the mode changes; levels, filter, term and sort key carry over. */
    method SetMode(mode: PageMode)
      requires Valid()
      modifies this
      ensures Valid()
      ensures selectedMode == mode
      ensures selectedLevels == old(selectedLevels) && characterFilter == old(characterFilter)
      ensures searchTerm == old(searchTerm) && sortBy == old(sortBy)
    {
      selectedMode := mode;
    }

    /** The 'all', 'single' and 'multi' buttons. */
    method SetCharacterFilter(f: CharacterFilter)
      requires Valid()
      modifies this
      ensures Valid()
      ensures characterFilter == f
      ensures selectedMode == old(selectedMode) && selectedLevels == old(selectedLevels)
      ensures searchTerm == old(searchTerm) && sortBy == old(sortBy)
    {
      characterFilter := f;
    }

    /** The search box. */
    method SetSearchTerm(term: string)
      requires Valid()
      modifies this
      ensures Valid()
      ensures searchTerm == term
      ensures selectedMode == old(selectedMode) && selectedLevels == old(selectedLevels)
      ensures characterFilter == old(characterFilter) && sortBy == old(sortBy)
    {
      searchTerm := term;
    }

    /** The sort selector. */
    method SetSortBy(key: SortKey)
      requires Valid()
      modifies this
      ensures Valid()
      ensures sortBy == key
      ensures selectedMode == old(selectedMode) && selectedLevels == old(selectedLevels)
      ensures characterFilter == old(characterFilter) && searchTerm == old(searchTerm)
    {
      sortBy := key;
    }
  }
}
