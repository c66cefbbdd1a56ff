/**
 * The practice decks: a screen shows one randomly drawn entry of a dataset, hides its
 * readings and translations until the learner reveals them, and lets the learner disable
 * entries so that they are not drawn again.
 *
 * `WordDeck` is the HSK/TOCFL word deck of the mobile HSK and TOCFL screens and of the web
 * TOCFL and HSK pages; the copies differ only in the reveal flags they reset, in whether a
 * single/multi character filter exists, in whether they offer disable-all and enable-all
 * (every copy but the mobile TOCFL screen) and in whether they restore the disabled set from
 * storage (the mobile TOCFL screen only), and a deck is built with the configuration of its copy. `KanjiDeck` is the mobile kanji screen,
 * `KanjiGradeDeck` the web kanji page (which draws from the selected grades only) and
 * `SentenceDeck` the mobile sentence screen.
 *
 * `Math.random()` is the caller-supplied `u` with `0 <= u < 1`; the drawn position is
 * `Math.floor(u * pool.length)`, as in every copy.
 */
module Practice {
  import opened Wrappers
  import opened Collections
  import opened Text

  /** The reveal toggles (`showVietnamese`, `showVietnameseTranslation`, …) of the screens. */
  datatype Flag = Vietnamese | VietnameseTranslation | English | Traditional | Jyutping | HanViet | Pinyin

  /** `characterFilter`: 'all', 'single' or 'multi'. */
  datatype CharacterFilter = AllWords | SingleCharacter | MultiCharacter

  /** An HSK or TOCFL entry; only the fields the deck logic reads are kept. */
  datatype Word = Word(id: int, characterCount: int)

  /** A kanji entry, keyed by its glyph (`kanji.kanji`). */
  datatype Kanji = Kanji(glyph: string)

  /** A sentence, matched by its simplified and traditional text. */
  datatype Sentence = Sentence(simplified: string, traditional: string)

  /** What the persistent store yields on mount: no entry, an entry that does not parse to an array, or an array. */
  datatype Stored<K> = NothingStored | Unreadable | StoredKeys(keys: seq<K>)

  const HskScreenFlags: set<Flag> := {VietnameseTranslation, English, Traditional, Jyutping, HanViet}
  const TocflScreenFlags: set<Flag> := {VietnameseTranslation, English, Traditional, Jyutping, HanViet, Pinyin}
  const TocflPageFlags: set<Flag> := {Vietnamese, VietnameseTranslation, English, Traditional, Jyutping, HanViet}
  const HskPageFlags: set<Flag> := {Vietnamese, VietnameseTranslation, English, Traditional, Jyutping}
  const KanjiFlags: set<Flag> := {Vietnamese, VietnameseTranslation, English}
  const SentenceFlags: set<Flag> := {VietnameseTranslation, English, Traditional, Jyutping, HanViet, Pinyin}

  /** `Math.floor(u * n)` for `0 <= u < 1`: always a position of a non-empty pool. */
  function Pick(u: real, n: nat): (i: nat)
    requires 0.0 <= u < 1.0 && n > 0
    ensures i < n
  {
    var x := u * (n as real);
    assert 0.0 <= x;
    assert x < n as real by {
      assert (n as real) - x == (1.0 - u) * (n as real);
    }
    x.Floor
  }

  // ---------------------------------------------------------------------------
  // HSK / TOCFL words
  // ---------------------------------------------------------------------------

  /** The single/multi character filter: 'single' keeps one-character words, 'multi' longer ones. */
  predicate Keeps(f: CharacterFilter, characterCount: int) {
    match f
    case AllWords => true
    case SingleCharacter => characterCount == 1
    case MultiCharacter => characterCount > 1
  }

  predicate Passes(f: CharacterFilter, w: Word) {
    Keeps(f, w.characterCount)
  }

  /**
   * The draw pool: the dataset is level 1 only, so every word is a candidate when level 1 is
   * selected and none otherwise; disabled ids are dropped, then the character filter applies.
   */
  function WordPool(data: seq<Word>, levels: seq<int>, disabled: set<int>, f: CharacterFilter): (pool: seq<Word>)
    ensures forall w :: w in pool <==> w in data && 1 in levels && w.id !in disabled && Passes(f, w)
  {
    Filter(Filter(data, (w: Word) => 1 in levels && w.id !in disabled), (w: Word) => Passes(f, w))
  }

  /** The ids of a dataset (`new Set(data.map(word => word.id))`). */
  function Ids(data: seq<Word>): set<int> {
    set w | w in data :: w.id
  }

  /** With every id disabled nothing can be drawn, whatever the levels and the filter. */
  lemma AllDisabledEmptiesPool(data: seq<Word>, levels: seq<int>, f: CharacterFilter)
    ensures WordPool(data, levels, Ids(data), f) == []
  {
  }

  class WordDeck {
    const data: seq<Word>
    /** The reveal flags this copy shows and resets on a draw. */
    const flags: set<Flag>
    /** Whether this copy has the single/multi character filter (the web HSK page does not). */
    const filterable: bool
    /** Whether this copy offers disable-all and enable-all (the mobile TOCFL screen does not). */
    const bulk: bool
    /** Whether this copy restores its disabled set on mount (the mobile TOCFL screen only). */
    const persisted: bool

    var selectedLevels: seq<int>
    var disabled: set<int>
    var characterFilter: CharacterFilter
    var current: Option<Word>
    var revealed: set<Flag>

    ghost predicate Valid()
      reads this
    {
      NoDup(selectedLevels) && revealed <= flags && (!filterable ==> characterFilter == AllWords)
      && (current.Some? ==> current.value in data)
    }

    /** The initial state: level 1 selected, nothing disabled, no filter, no word, everything hidden. */
    constructor (data: seq<Word>, flags: set<Flag>, filterable: bool, bulk: bool, persisted: bool)
      ensures Valid()
      ensures this.data == data && this.flags == flags && this.filterable == filterable
      ensures this.bulk == bulk && this.persisted == persisted
      ensures selectedLevels == [1] && disabled == {} && characterFilter == AllWords
      ensures current == None && revealed == {}
    {
      this.data := data;
      this.flags := flags;
      this.filterable := filterable;
      this.bulk := bulk;
      this.persisted := persisted;
      selectedLevels := [1];
      disabled := {};
      characterFilter := AllWords;
      current := None;
      revealed := {};
    }

    function Pool(): seq<Word>
      reads this
    {
      WordPool(data, selectedLevels, disabled, characterFilter)
    }

    /**
     * `generateRandomWord`: an empty pool raises the alert and changes nothing; otherwise the
     * word at `floor(u * |pool|)` becomes current and every reveal flag is reset.
     */
    method Draw(u: real) returns (alerted: bool)
      requires Valid() && 0.0 <= u < 1.0
      modifies this
      ensures Valid()
      ensures alerted <==> old(Pool()) == []
      ensures alerted ==> current == old(current) && revealed == old(revealed)
      ensures !alerted ==> current == Some(old(Pool())[Pick(u, |old(Pool())|)]) && revealed == {}
      ensures !alerted ==> current.value in data && 1 in selectedLevels && current.value.id !in disabled
                           && Passes(characterFilter, current.value)
      ensures selectedLevels == old(selectedLevels) && disabled == old(disabled)
      ensures characterFilter == old(characterFilter)
    {
      var pool := WordPool(data, selectedLevels, disabled, characterFilter);
      if |pool| == 0 {
        alerted := true;
        return;
      }
      alerted := false;
      var i := Pick(u, |pool|);
      assert pool[i] in pool;
      current := Some(pool[i]);
      revealed := {};
    }

    /** `getAvailableWordsCount`: the size of the pool a draw would use. */
    method AvailableCount() returns (n: nat)
      ensures n == |Pool()|
      ensures n <= |data|
      ensures 1 !in selectedLevels ==> n == 0
    {
      var pool := WordPool(data, selectedLevels, disabled, characterFilter);
      n := |pool|;
    }

    /** `toggleLevel`: removes the level if selected, appends it otherwise. */
    method ToggleLevel(level: int)
      requires Valid()
      modifies this
      ensures Valid()
      ensures selectedLevels == ToggleFirst(old(selectedLevels), level)
      ensures level in selectedLevels <==> level !in old(selectedLevels)
      ensures forall l :: l != level ==> (l in selectedLevels <==> l in old(selectedLevels))
      ensures disabled == old(disabled) && characterFilter == old(characterFilter)
      ensures current == old(current) && revealed == old(revealed)
    {
      ToggleFirstFlips(selectedLevels, level);
      selectedLevels := ToggleFirst(selectedLevels, level);
    }

    /** `toggleWordDisabled`: flips whether `id` is disabled. */
    method ToggleDisabled(id: int)
      requires Valid()
      modifies this
      ensures Valid()
      ensures disabled == Flip(old(disabled), id)
      ensures selectedLevels == old(selectedLevels) && characterFilter == old(characterFilter)
      ensures current == old(current) && revealed == old(revealed)
    {
      disabled := Flip(disabled, id);
    }

    /** `setCharacterFilter`, offered by the copies that have the filter. */
    method SetCharacterFilter(f: CharacterFilter)
      requires Valid() && filterable
      modifies this
      ensures Valid()
      ensures characterFilter == f
      ensures selectedLevels == old(selectedLevels) && disabled == old(disabled)
      ensures current == old(current) && revealed == old(revealed)
    {
      characterFilter := f;
    }

    /** A Show/Hide button: flips one reveal flag. */
    method ToggleReveal(flag: Flag)
      requires Valid() && flag in flags
      modifies this
      ensures Valid()
      ensures revealed == Flip(old(revealed), flag)
      ensures selectedLevels == old(selectedLevels) && disabled == old(disabled)
      ensures characterFilter == old(characterFilter) && current == old(current)
    {
      revealed := Flip(revealed, flag);
    }

    /** `disableAllWords`: every id of the dataset, whatever the filter; nothing can be drawn afterwards. */
    method DisableAll()
      requires Valid() && bulk
      modifies this
      ensures Valid()
      ensures disabled == Ids(data)
      ensures Pool() == []
      ensures selectedLevels == old(selectedLevels) && characterFilter == old(characterFilter)
      ensures current == old(current) && revealed == old(revealed)
    {
      disabled := Ids(data);
      AllDisabledEmptiesPool(data, selectedLevels, characterFilter);
    }

    /** `enableAllWords`, offered by the same copies as `DisableAll`. */
    method EnableAll()
      requires Valid() && bulk
      modifies this
      ensures Valid()
      ensures disabled == {}
      ensures selectedLevels == old(selectedLevels) && characterFilter == old(characterFilter)
      ensures current == old(current) && revealed == old(revealed)
    {
      disabled := {};
    }

    /** The mount-time load: a stored array replaces the set; no entry or an unreadable one keeps it. */
    method Load(stored: Stored<int>)
      requires Valid() && persisted
      modifies this
      ensures Valid()
      ensures stored.StoredKeys? ==> disabled == set k | k in stored.keys
      ensures !stored.StoredKeys? ==> disabled == old(disabled)
      ensures selectedLevels == old(selectedLevels) && characterFilter == old(characterFilter)
      ensures current == old(current) && revealed == old(revealed)
    {
      if stored.StoredKeys? {
        disabled := set k | k in stored.keys;
      }
    }
  }

  // ---------------------------------------------------------------------------
  // Kanji, mobile: one list of grades 1..6, the grade selection is not consulted
  // ---------------------------------------------------------------------------

  function KanjiPool(all: seq<Kanji>, disabled: set<string>): (pool: seq<Kanji>)
    ensures forall k :: k in pool <==> k in all && k.glyph !in disabled
  {
    Filter(all, (k: Kanji) => k.glyph !in disabled)
  }

  /** The kanji whose glyph is disabled. */
  function DisabledKanji(all: seq<Kanji>, disabled: set<string>): seq<Kanji> {
    Filter(all, (k: Kanji) => k.glyph in disabled)
  }

  /** The available count is the whole list less its disabled entries. */
  lemma KanjiPoolSize(all: seq<Kanji>, disabled: set<string>)
    ensures |KanjiPool(all, disabled)| == |all| - |DisabledKanji(all, disabled)|
  {
    FilterSplitsLength(all, (k: Kanji) => k.glyph !in disabled, (k: Kanji) => k.glyph in disabled);
  }

  function Glyphs(ks: seq<Kanji>): set<string> {
    set k | k in ks :: k.glyph
  }

  lemma AllGlyphsDisabledEmptiesPool(all: seq<Kanji>)
    ensures KanjiPool(all, Glyphs(all)) == []
  {
    forall k | k in all
      ensures k.glyph in Glyphs(all)
    {
    }
    FilterNone(all, (k: Kanji) => k.glyph !in Glyphs(all));
  }

  class KanjiDeck {
    const allKanji: seq<Kanji>
    var selectedGrades: seq<int>
    var disabled: set<string>
    var current: Option<Kanji>
    var revealed: set<Flag>

    ghost predicate Valid()
      reads this
    {
      NoDup(selectedGrades) && revealed <= KanjiFlags && (current.Some? ==> current.value in allKanji)
    }

    constructor (kanjiData: map<int, seq<Kanji>>)
      ensures Valid()
      ensures allKanji == Range(kanjiData, 1, 6)
      ensures selectedGrades == [1] && disabled == {} && current == None && revealed == {}
    {
      var all := ConcatRange(kanjiData, 1, 6);
      allKanji := all;
      selectedGrades := [1];
      disabled := {};
      current := None;
      revealed := {};
    }

    function Pool(): seq<Kanji>
      reads this
    {
      KanjiPool(allKanji, disabled)
    }

    /** `generateRandomKanji`: alert on an empty pool, else a pool member with three flags reset. */
    method Draw(u: real) returns (alerted: bool)
      requires Valid() && 0.0 <= u < 1.0
      modifies this
      ensures Valid()
      ensures alerted <==> old(Pool()) == []
      ensures alerted ==> current == old(current) && revealed == old(revealed)
      ensures !alerted ==> current == Some(old(Pool())[Pick(u, |old(Pool())|)]) && revealed == {}
      ensures !alerted ==> current.value in allKanji && current.value.glyph !in disabled
      ensures selectedGrades == old(selectedGrades) && disabled == old(disabled)
    {
      var pool := KanjiPool(allKanji, disabled);
      if |pool| == 0 {
        alerted := true;
        return;
      }
      alerted := false;
      var i := Pick(u, |pool|);
      assert pool[i] in pool;
      current := Some(pool[i]);
      revealed := {};
    }

    /** `getAvailableKanjiCount`: all kanji less the disabled ones. */
    method AvailableCount() returns (n: nat)
      ensures n == |Pool()|
      ensures n == |allKanji| - |DisabledKanji(allKanji, disabled)|
    {
      n := |KanjiPool(allKanji, disabled)|;
      KanjiPoolSize(allKanji, disabled);
    }

    /** `toggleGrade` (splice/push); the selection is shown but does not affect the pool. */
    method ToggleGrade(grade: int)
      requires Valid()
      modifies this
      ensures Valid()
      ensures selectedGrades == ToggleFirst(old(selectedGrades), grade)
      ensures grade in selectedGrades <==> grade !in old(selectedGrades)
      ensures Pool() == old(Pool())
      ensures disabled == old(disabled) && current == old(current) && revealed == old(revealed)
    {
      ToggleFirstFlips(selectedGrades, grade);
      selectedGrades := ToggleFirst(selectedGrades, grade);
    }

    /** `toggleKanjiDisabled`. */
    method ToggleDisabled(glyph: string)
      requires Valid()
      modifies this
      ensures Valid()
      ensures disabled == Flip(old(disabled), glyph)
      ensures selectedGrades == old(selectedGrades) && current == old(current) && revealed == old(revealed)
    {
      disabled := Flip(disabled, glyph);
    }

    method ToggleReveal(flag: Flag)
      requires Valid() && flag in KanjiFlags
      modifies this
      ensures Valid()
      ensures revealed == Flip(old(revealed), flag)
      ensures selectedGrades == old(selectedGrades) && disabled == old(disabled) && current == old(current)
    {
      revealed := Flip(revealed, flag);
    }

    /** `disableAllKanji`: every glyph of every grade; nothing can be drawn afterwards. */
    method DisableAll()
      requires Valid()
      modifies this
      ensures Valid()
      ensures disabled == Glyphs(allKanji)
      ensures Pool() == []
      ensures selectedGrades == old(selectedGrades) && current == old(current) && revealed == old(revealed)
    {
      disabled := Glyphs(allKanji);
      AllGlyphsDisabledEmptiesPool(allKanji);
    }

    method EnableAll()
      requires Valid()
      modifies this
      ensures Valid()
      ensures disabled == {}
      ensures selectedGrades == old(selectedGrades) && current == old(current) && revealed == old(revealed)
    {
      disabled := {};
    }
  }

  // ---------------------------------------------------------------------------
  // Kanji, web: each selected grade, in selection order
  // ---------------------------------------------------------------------------

  /** The enabled kanji of `kanjiData[g]` for each `g` of `grades` in turn (missing grades skipped). */
  function GradePool(kanjiData: map<int, seq<Kanji>>, grades: seq<int>, disabled: set<string>): seq<Kanji>
  {
    if grades == [] then []
    else GradePool(kanjiData, grades[..|grades| - 1], disabled)
         + KanjiPool(Part(kanjiData, grades[|grades| - 1]), disabled)
  }

  /** The per-grade filtering is the same as filtering the concatenation of the selected grades. */
  lemma {:induction false} GradePoolIsFilteredConcat(kanjiData: map<int, seq<Kanji>>, grades: seq<int>, disabled: set<string>)
    ensures GradePool(kanjiData, grades, disabled) == KanjiPool(Concat(kanjiData, grades), disabled)
  {
    if grades != [] {
      var init := grades[..|grades| - 1];
      GradePoolIsFilteredConcat(kanjiData, init, disabled);
      FilterAppend(Concat(kanjiData, init), Part(kanjiData, grades[|grades| - 1]), (k: Kanji) => k.glyph !in disabled);
    }
  }

  /** A kanji can be drawn exactly when a selected grade holds it and its glyph is enabled. */
  lemma GradePoolMembers(kanjiData: map<int, seq<Kanji>>, grades: seq<int>, disabled: set<string>, k: Kanji)
    ensures k in GradePool(kanjiData, grades, disabled)
        <==> k.glyph !in disabled && exists g :: g in grades && g in kanjiData && k in kanjiData[g]
  {
    GradePoolIsFilteredConcat(kanjiData, grades, disabled);
    ConcatMembers(kanjiData, grades, k);
  }

  /** The glyphs of the selected grades. */
  function SelectedGlyphs(kanjiData: map<int, seq<Kanji>>, grades: seq<int>): set<string>
  {
    if grades == [] then {}
    else SelectedGlyphs(kanjiData, grades[..|grades| - 1]) + Glyphs(Part(kanjiData, grades[|grades| - 1]))
  }

  /** Disabling the glyphs of the selected grades leaves nothing to draw from those grades. */
  lemma {:induction false} SelectedGlyphsEmptyPool(kanjiData: map<int, seq<Kanji>>, grades: seq<int>, extra: set<string>)
    requires SelectedGlyphs(kanjiData, grades) <= extra
    ensures GradePool(kanjiData, grades, extra) == []
  {
    if grades != [] {
      var init := grades[..|grades| - 1];
      var part := Part(kanjiData, grades[|grades| - 1]);
      SelectedGlyphsEmptyPool(kanjiData, init, extra);
      AllGlyphsDisabledEmptiesPool(part);
      assert Glyphs(part) <= extra;
      FilterNone(part, (k: Kanji) => k.glyph !in extra);
    }
  }

  class KanjiGradeDeck {
    const kanjiData: map<int, seq<Kanji>>
    var selectedGrades: seq<int>
    var disabled: set<string>
    var current: Option<Kanji>
    var revealed: set<Flag>

    ghost predicate Valid()
      reads this
    {
      revealed <= KanjiFlags
    }

    constructor (kanjiData: map<int, seq<Kanji>>)
      ensures Valid()
      ensures this.kanjiData == kanjiData
      ensures selectedGrades == [1] && disabled == {} && current == None && revealed == {}
    {
      this.kanjiData := kanjiData;
      selectedGrades := [1];
      disabled := {};
      current := None;
      revealed := {};
    }

    function Pool(): seq<Kanji>
      reads this
    {
      GradePool(kanjiData, selectedGrades, disabled)
    }

    /** `generateRandomKanji`: an empty pool does nothing at all (no alert here). */
    method Draw(u: real)
      requires Valid() && 0.0 <= u < 1.0
      modifies this
      ensures Valid()
      ensures old(Pool()) == [] ==> current == old(current) && revealed == old(revealed)
      ensures old(Pool()) != [] ==> current == Some(old(Pool())[Pick(u, |old(Pool())|)]) && revealed == {}
      ensures selectedGrades == old(selectedGrades) && disabled == old(disabled)
    {
      var pool := GradePool(kanjiData, selectedGrades, disabled);
      if |pool| > 0 {
        var i := Pick(u, |pool|);
        current := Some(pool[i]);
        revealed := {};
      }
    }

    /** `getAvailableKanjiCount`: a running count over the selected grades. */
    method AvailableCount() returns (count: nat)
      ensures count == |Pool()|
    {
      count := 0;
      var i := 0;
      while i < |selectedGrades|
        invariant 0 <= i <= |selectedGrades|
        invariant count == |GradePool(kanjiData, selectedGrades[..i], disabled)|
      {
        var grade := selectedGrades[i];
        if grade in kanjiData {
          count := count + |KanjiPool(kanjiData[grade], disabled)|;
        }
        assert selectedGrades[..i + 1][..i] == selectedGrades[..i];
        i := i + 1;
      }
      assert selectedGrades[..i] == selectedGrades;
    }

    /** `toggleGrade`: drops every occurrence of the grade, or appends it. */
    method ToggleGrade(grade: int)
      requires Valid()
      modifies this
      ensures Valid()
      ensures selectedGrades == ToggleAll(old(selectedGrades), grade)
      ensures grade in selectedGrades <==> grade !in old(selectedGrades)
      ensures forall g :: g != grade ==> (g in selectedGrades <==> g in old(selectedGrades))
      ensures disabled == old(disabled) && current == old(current) && revealed == old(revealed)
    {
      ToggleAllFlips(selectedGrades, grade);
      selectedGrades := ToggleAll(selectedGrades, grade);
    }

    method ToggleDisabled(glyph: string)
      requires Valid()
      modifies this
      ensures Valid()
      ensures disabled == Flip(old(disabled), glyph)
      ensures selectedGrades == old(selectedGrades) && current == old(current) && revealed == old(revealed)
    {
      disabled := Flip(disabled, glyph);
    }

    method ToggleReveal(flag: Flag)
      requires Valid() && flag in KanjiFlags
      modifies this
      ensures Valid()
      ensures revealed == Flip(old(revealed), flag)
      ensures selectedGrades == old(selectedGrades) && disabled == old(disabled) && current == old(current)
    {
      revealed := Flip(revealed, flag);
    }

    /**
     * `disableAllKanji`: the set is REPLACED by the glyphs of the selected grades, so glyphs of
     * other grades that were disabled become enabled again.
     */
    method DisableAll()
      requires Valid()
      modifies this
      ensures Valid()
      ensures disabled == SelectedGlyphs(kanjiData, selectedGrades)
      ensures Pool() == []
      ensures selectedGrades == old(selectedGrades) && current == old(current) && revealed == old(revealed)
    {
      var all: set<string> := {};
      var i := 0;
      while i < |selectedGrades|
        invariant 0 <= i <= |selectedGrades|
        invariant all == SelectedGlyphs(kanjiData, selectedGrades[..i])
      {
        var grade := selectedGrades[i];
        if grade in kanjiData {
          all := all + Glyphs(kanjiData[grade]);
        }
        assert selectedGrades[..i + 1][..i] == selectedGrades[..i];
        i := i + 1;
      }
      assert selectedGrades[..i] == selectedGrades;
      disabled := all;
      SelectedGlyphsEmptyPool(kanjiData, selectedGrades, all);
    }

    method EnableAll()
      requires Valid()
      modifies this
      ensures Valid()
      ensures disabled == {}
      ensures selectedGrades == old(selectedGrades) && current == old(current) && revealed == old(revealed)
    {
      disabled := {};
    }
  }

  // ---------------------------------------------------------------------------
  // Sentences, mobile: keyed by position, `sentence-${index}`
  // ---------------------------------------------------------------------------

  /** The disabled-set key of the sentence at `index`. */
  function SentenceKey(index: int): string {
    "sentence-" + IntToString(index)
  }

  /** Distinct positions have distinct keys, so a toggle never touches another sentence. */
  lemma SentenceKeyInjective(i: nat, j: nat)
    ensures SentenceKey(i) == SentenceKey(j) ==> i == j
  {
    PrefixedNumberInjective("sentence-", i, j);
  }

  /** The positions below `n` whose key is not disabled, in increasing order. */
  function EnabledIndices(n: nat, disabled: set<string>): (r: seq<nat>)
    ensures forall i :: i in r <==> 0 <= i < n && SentenceKey(i) !in disabled
    ensures forall k :: 0 <= k < |r| ==> r[k] < n
    ensures forall a, b :: 0 <= a < b < |r| ==> r[a] < r[b]
    ensures |r| <= n
  {
    if n == 0 then []
    else EnabledIndices(n - 1, disabled) + (if SentenceKey(n - 1) !in disabled then [n - 1] else [])
  }

  /** `sentencesData.filter((sentence, index) => !disabled.has(`sentence-${index}`))`. */
  function SentencePool<T>(sentences: seq<T>, disabled: set<string>): (pool: seq<T>)
    ensures var idx := EnabledIndices(|sentences|, disabled);
      |pool| == |idx| && forall k :: 0 <= k < |pool| ==> pool[k] == sentences[idx[k]]
  {
    var idx := EnabledIndices(|sentences|, disabled);
    seq(|idx|, k requires 0 <= k < |idx| => sentences[idx[k]])
  }

  /** A sentence is in the pool exactly when it stands at a position whose key is not disabled. */
  lemma SentencePoolMembers<T>(sentences: seq<T>, disabled: set<string>, s: T)
    ensures s in SentencePool(sentences, disabled)
        <==> exists i :: 0 <= i < |sentences| && SentenceKey(i) !in disabled && sentences[i] == s
  {
    var pool := SentencePool(sentences, disabled);
    var idx := EnabledIndices(|sentences|, disabled);
    if s in pool {
      var k :| 0 <= k < |pool| && pool[k] == s;
      assert idx[k] in idx;
    }
    if exists i :: 0 <= i < |sentences| && SentenceKey(i) !in disabled && sentences[i] == s {
      var i :| 0 <= i < |sentences| && SentenceKey(i) !in disabled && sentences[i] == s;
      assert i in idx;
      var k :| 0 <= k < |idx| && idx[k] == i;
      assert pool[k] == s;
    }
  }

  /** `findIndex` on the simplified and traditional text: the first matching position, or -1. */
  function FirstMatch(sentences: seq<Sentence>, s: Sentence): (i: int)
    ensures -1 <= i < |sentences|
    ensures i == -1 <==> forall j :: 0 <= j < |sentences| ==> sentences[j] != s
    ensures i >= 0 ==> sentences[i] == s && forall j :: 0 <= j < i ==> sentences[j] != s
  {
    FindIndex(sentences, (x: Sentence) => x.simplified == s.simplified && x.traditional == s.traditional)
  }

  /** The data position of the sentence drawn with `u` (used by the corrected disable button). */
  function DrawnIndex(sentences: seq<Sentence>, disabled: set<string>, u: real): (i: nat)
    requires 0.0 <= u < 1.0 && SentencePool(sentences, disabled) != []
    ensures i < |sentences| && SentenceKey(i) !in disabled
    ensures sentences[i] == SentencePool(sentences, disabled)[Pick(u, |SentencePool(sentences, disabled)|)]
  {
    var idx := EnabledIndices(|sentences|, disabled);
    var k := Pick(u, |idx|);
    assert idx[k] in idx;
    idx[k]
  }

  /**
   * Disabling by the drawn position takes the drawn sentence, and only it, out of the pool.
   */
  lemma ToggleDrawnRemovesIt(sentences: seq<Sentence>, disabled: set<string>, u: real)
    requires 0.0 <= u < 1.0 && SentencePool(sentences, disabled) != []
    ensures var i := DrawnIndex(sentences, disabled, u);
      var after := Flip(disabled, SentenceKey(i));
      i !in EnabledIndices(|sentences|, after)
      && forall j :: j != i ==> (j in EnabledIndices(|sentences|, after) <==> j in EnabledIndices(|sentences|, disabled))
  {
    var i := DrawnIndex(sentences, disabled, u);
    forall j: nat | j != i
      ensures SentenceKey(j) != SentenceKey(i)
    {
      SentenceKeyInjective(i, j);
    }
  }

  /** A sentence whose simplified and traditional texts are both 你好. */
  const Hello: Sentence := Sentence("\U{4F60}\U{597D}", "\U{4F60}\U{597D}")

  /** With `Hello` at positions 0 and 1 and position 0 disabled, the pool is the copy at position 1, which is what gets drawn. */
  lemma DuplicateDrawsSecondCopy()
    ensures SentencePool([Hello, Hello], {SentenceKey(0)}) == [Hello]
    ensures DrawnIndex([Hello, Hello], {SentenceKey(0)}, 0.0) == 1
  {
    OnlySecondEnabled();
    var pool := SentencePool([Hello, Hello], {SentenceKey(0)});
    assert |pool| == 1 && pool[0] == Hello;
    PickOfZero(1);
  }

  lemma OnlySecondEnabled()
    ensures EnabledIndices(2, {SentenceKey(0)}) == [1]
  {
    var before := {SentenceKey(0)};
    SentenceKeyInjective(0, 1);
    assert EnabledIndices(1, before) == [];
  }

  lemma PickOfZero(n: nat)
    requires n > 0
    ensures Pick(0.0, n) == 0
  {
    assert 0.0 * (n as real) == 0.0;
  }

  /** `findIndex` finds the first copy, and toggling its key re-enables it. */
  lemma DuplicateFindsFirstCopy()
    ensures FirstMatch([Hello, Hello], Hello) == 0
    ensures Flip({SentenceKey(0)}, SentenceKey(0)) == {}
  {
  }

  /**
   * The disable button as written targets `FirstMatch` of the shown sentence: with the same
   * sentence at positions 0 and 1 and position 0 disabled, the draw shows position 1, and the
   * button re-enables position 0 instead of disabling the shown sentence.
   */
  lemma DuplicateSentenceToggleMissesDrawnCopy()
    ensures var before := {SentenceKey(0)};
      SentencePool([Hello, Hello], before) == [Hello] && DrawnIndex([Hello, Hello], before, 0.0) == 1
      && FirstMatch([Hello, Hello], Hello) == 0 && Flip(before, SentenceKey(FirstMatch([Hello, Hello], Hello))) == {}
  {
    DuplicateDrawsSecondCopy();
    DuplicateFindsFirstCopy();
  }

  class SentenceDeck {
    const sentences: seq<Sentence>
    var disabled: set<string>
    var current: Option<Sentence>
    /** The data position of the drawn sentence, which the corrected disable button uses. */
    var currentIndex: int
    var revealed: set<Flag>

    ghost predicate Valid()
      reads this
    {
      revealed <= SentenceFlags && (current.Some? <==> 0 <= currentIndex < |sentences|)
      && (current.Some? ==> current.value == sentences[currentIndex])
    }

    constructor (sentences: seq<Sentence>)
      ensures Valid()
      ensures this.sentences == sentences && disabled == {} && current == None && revealed == {}
    {
      this.sentences := sentences;
      disabled := {};
      current := None;
      currentIndex := -1;
      revealed := {};
    }

    function Pool(): seq<Sentence>
      reads this
    {
      SentencePool(sentences, disabled)
    }

    /** `generateRandomSentence`. */
    method Draw(u: real) returns (alerted: bool)
      requires Valid() && 0.0 <= u < 1.0
      modifies this
      ensures Valid()
      ensures alerted <==> old(Pool()) == []
      ensures alerted ==> current == old(current) && revealed == old(revealed) && currentIndex == old(currentIndex)
      ensures !alerted ==> current == Some(old(Pool())[Pick(u, |old(Pool())|)]) && revealed == {}
      ensures disabled == old(disabled)
      ensures !alerted ==> currentIndex == DrawnIndex(sentences, disabled, u) && SentenceKey(currentIndex) !in disabled
    {
      var pool := SentencePool(sentences, disabled);
      if |pool| == 0 {
        alerted := true;
        return;
      }
      alerted := false;
      var i := Pick(u, |pool|);
      current := Some(pool[i]);
      currentIndex := DrawnIndex(sentences, disabled, u);
      revealed := {};
    }

    /** `getAvailableSentencesCount`: the number of positions whose key is not disabled. */
    method AvailableCount() returns (n: nat)
      ensures n == |Pool()|
      ensures n == |EnabledIndices(|sentences|, disabled)| && n <= |sentences|
    {
      n := |SentencePool(sentences, disabled)|;
    }

    /** `getSentenceIndex`: -1 without a sentence, else the first position with the same text. */
    function SentenceIndex(): (i: int)
      reads this
      ensures current.None? ==> i == -1
      ensures current.Some? && i >= 0 ==> i < |sentences| && sentences[i] == current.value
                                          && forall j :: 0 <= j < i ==> sentences[j] != current.value
      ensures current.Some? && current.value in sentences ==> i >= 0
    {
      if current.None? then -1 else FirstMatch(sentences, current.value)
    }

    /** `toggleSentenceDisabled(index)`: flips the key `sentence-${index}` and no other. */
    method ToggleSentenceDisabled(index: int)
      requires Valid()
      modifies this
      ensures Valid()
      ensures disabled == Flip(old(disabled), SentenceKey(index))
      ensures current == old(current) && currentIndex == old(currentIndex) && revealed == old(revealed)
    {
      disabled := Flip(disabled, SentenceKey(index));
    }

    /** The disable button, corrected to target the drawn position rather than the first equal sentence. */
    method ToggleCurrentDisabled()
      requires Valid() && current.Some?
      modifies this
      ensures Valid()
      ensures disabled == Flip(old(disabled), SentenceKey(currentIndex))
      ensures currentIndex in EnabledIndices(|sentences|, old(disabled))
              ==> currentIndex !in EnabledIndices(|sentences|, disabled)
      ensures current == old(current) && currentIndex == old(currentIndex) && revealed == old(revealed)
    {
      disabled := Flip(disabled, SentenceKey(currentIndex));
    }

    method ToggleReveal(flag: Flag)
      requires Valid() && flag in SentenceFlags
      modifies this
      ensures Valid()
      ensures revealed == Flip(old(revealed), flag)
      ensures disabled == old(disabled) && current == old(current) && currentIndex == old(currentIndex)
    {
      revealed := Flip(revealed, flag);
    }

    /** The mount-time load of the disabled keys. */
    method Load(stored: Stored<string>)
      requires Valid()
      modifies this
      ensures Valid()
      ensures stored.StoredKeys? ==> disabled == set k | k in stored.keys
      ensures !stored.StoredKeys? ==> disabled == old(disabled)
      ensures current == old(current) && currentIndex == old(currentIndex) && revealed == old(revealed)
    {
      if stored.StoredKeys? {
        disabled := set k | k in stored.keys;
      }
    }
  }
}
