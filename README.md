# RandomHanzi core, modelled in Dafny

RandomHanzi is a flash-card app for Chinese (HSK and TOCFL vocabulary), Japanese kanji and
example sentences, with Vietnamese Han-Viet readings, plus the scripts that build its data.
This project models the deterministic core of it and proves what that core promises:

- **Practice decks** (`deck.dfy`, module `Practice`). These are the draw-a-random-card
  screens: the mobile HSK, TOCFL, Kanji and Sentences screens and the web TOCFL, HSK and
  kanji (App) pages. Each is a class holding the selected levels, the disabled set, the
  current card and the reveal flags. It builds a pool, refuses to draw from an empty one,
  picks `pool[floor(u * |pool|)]` for a caller-supplied `0 <= u < 1`, and toggles,
  disables all or enables all. `WordDeck` stands for the four word screens. They differ
  only in their reveal flags, in whether a character filter exists (the web HSK page has
  none), in whether disable-all and enable-all exist (not on the mobile TOCFL screen) and in
  whether the disabled set is restored on mount (only on the mobile TOCFL screen).
- **Browse lists** (`charlist.dfy`, module `CharacterList`). The mobile character list
  (`BrowseScreen`) chains level, disabled-sentence, character-count and search filters.
  The web character list (`ListPage`) chains level, character-count and search filters,
  then sorts.
- **Sentence level assignment** (`levels.dfy`, module `Levels`). This is the C program
  `check_all_levels.c` on byte strings:
  - a growable word list over an `array`;
  - UTF-8 lead-byte classification;
  - greedy longest-match segmentation against a recursive specification;
  - the lowest-level search;
  - the hand-written CSV field scanner and the quoting of the output row, with a proof
    that an output row reads back as the values written.
- **Han-Viet readings** (`hanviet.dfy`, module `HanViet`). This is the ordered
  `char|pinyin` table of `add_hanviet_from_csv.py`. The model covers:
  - its loading, including the `char|*` fallback keys;
  - reading collection;
  - the single-character, whole-word and per-character lookups.
- **Sentence composer** (`composer.dfy`, module `Composer`). This is
  `get_hanviet_with_preserved_chars` from `scripts/process_sentences.py` and
  `process_cmn_sen_csv.py`: character classification, Latin grouping, placeholders and the
  four spacing rules. It also models the sentence row selection.
- **Data-prep helpers** (`dataprep.dfy`, module `DataPrep`):
  - `count_chinese_characters` in its cleaning and plain variants;
  - `clean_word_type`;
  - the empty-input guards;
  - the HSK 7, HSK CSV and TOCFL builders, with batch partitioning, id assignment and
    the Han-Viet pass;
  - `count_characters.py`.
- Shared pieces:
  - `text.dfy` (`Text`): whitespace sets, trim/strip, substring search, split at the
    first separator, bracket removal, CJK counting, decimal numerals and join.
  - `collections.dfy` (`Collections`): filter, set flip, the splice/push toggle, dedupe,
    grade flattening, row numbering and batches.
  - `sorting.dfy` (`Sorting`): a stable insertion sort standing in for `Array.prototype.sort`
    and `list.sort`.
  - `wrappers.dfy` (`Wrappers`): `Option`.

Some things are parameters of the model rather than part of it:

- Randomness is the parameter `u`.
- Translation services, the Jyutping romaniser, `toLowerCase`, `localeCompare` and
  Python's `isalnum` beyond ASCII are function-valued parameters.
- Stored data (`AsyncStorage`) is the datatype `Stored`: nothing stored, an unreadable
  entry, or a list of keys.

## Model

| member | source | states |
|---|---|---|
| Practice.Pick | mobile/screens/HSKScreen.js:32-33 | `floor(u * n)` for `0 <= u < 1` is a valid position of a non-empty pool |
| Practice.WordPool | mobile/screens/HSKScreen.js:17-25 | a word is in the pool iff it is in the data, level 1 is selected, its id is not disabled and it passes the single/multi filter |
| Practice.AllDisabledEmptiesPool | mobile/screens/HSKScreen.js:76-79 | with every id of the data disabled the pool is empty whatever the levels and filter |
| Practice.WordDeck.constructor | mobile/screens/HSKScreen.js:6-14 | initial state: levels [1], nothing disabled, filter 'all', no word, every flag hidden; the copy's flags, filter, bulk operations and persistence fixed |
| Practice.WordDeck.Draw | mobile/screens/HSKScreen.js:16-40 | alerts iff the pool is empty and then changes nothing; otherwise the current word is `pool[Pick(u, size of pool)]`, a member of the data that is selected, enabled and passes the filter, and all reveal flags are reset; levels, disabled set and filter unchanged |
| Practice.WordDeck.AvailableCount | mobile/screens/HSKScreen.js:62-74 | the count is the size of the pool the draw uses, at most the dataset, 0 without level 1 |
| Practice.WordDeck.ToggleLevel | mobile/screens/HSKScreen.js:42-50 | levels become the splice/push toggle of the level: its membership flips, no other level's does, nothing else changes |
| Practice.WordDeck.ToggleDisabled | mobile/screens/HSKScreen.js:52-60 | the disabled set flips membership of exactly this id; nothing else changes |
| Practice.WordDeck.SetCharacterFilter | mobile/screens/HSKScreen.js:113 | only the character filter changes |
| Practice.WordDeck.ToggleReveal | mobile/screens/HSKScreen.js:137-157 | one reveal flag flips; nothing else changes |
| Practice.WordDeck.DisableAll | mobile/screens/HSKScreen.js:76-79 | on the copies that offer it, the disabled set becomes every id of the dataset, regardless of filter, and the pool is empty |
| Practice.WordDeck.EnableAll | mobile/screens/HSKScreen.js:81-83 | the disabled set becomes empty whatever it held |
| Practice.WordDeck.Load | mobile/screens/TOCFLScreen.js:25-38 | on the persisted copy, a stored array replaces the disabled set; nothing stored or an unreadable entry keeps it |
| Practice.KanjiPool | mobile/screens/KanjiScreen.js:21 | a kanji is in the pool iff it is in the flattened list and its glyph is not disabled; the selected grades play no part |
| Practice.KanjiPoolSize | mobile/screens/KanjiScreen.js:56-58 | the pool size is the list size minus the entries whose glyph is disabled |
| Practice.AllGlyphsDisabledEmptiesPool | mobile/screens/KanjiScreen.js:60-63 | disabling every glyph of the list empties the pool |
| Practice.KanjiDeck.constructor | mobile/screens/KanjiScreen.js:13-18 | the list is grades 1..6 concatenated in grade order, missing grades skipped; grade 1 selected, nothing disabled |
| Practice.KanjiDeck.Draw | mobile/screens/KanjiScreen.js:20-34 | alerts iff the pool is empty, changing nothing; otherwise the current kanji is `pool[Pick]`, an enabled member of the list, with the three flags reset |
| Practice.KanjiDeck.AvailableCount | mobile/screens/KanjiScreen.js:56-58 | the count is the pool size, i.e. the list less its disabled entries |
| Practice.KanjiDeck.ToggleGrade | mobile/screens/KanjiScreen.js:36-44 | the grade's membership flips (splice/push) and the pool is unchanged |
| Practice.KanjiDeck.ToggleDisabled | mobile/screens/KanjiScreen.js:46-54 | flips exactly this glyph in the disabled set |
| Practice.KanjiDeck.ToggleReveal | mobile/screens/KanjiScreen.js:111-135 | one reveal flag flips |
| Practice.KanjiDeck.DisableAll | mobile/screens/KanjiScreen.js:60-63 | the disabled set becomes every glyph of the list and the pool is empty |
| Practice.KanjiDeck.EnableAll | mobile/screens/KanjiScreen.js:65-67 | the disabled set becomes empty |
| Practice.GradePoolIsFilteredConcat | src/App.js:16-23 | filtering grade by grade in selection order equals filtering the concatenation of the selected grades |
| Practice.GradePoolMembers | src/App.js:16-23 | a kanji can be drawn iff its glyph is enabled and some selected, present grade holds it |
| Practice.SelectedGlyphsEmptyPool | src/App.js:65-73 | once the glyphs of the selected grades are disabled, nothing can be drawn |
| Practice.KanjiGradeDeck.constructor | src/App.js:7-13 | grade 1 selected, nothing disabled, no kanji, flags hidden |
| Practice.KanjiGradeDeck.Draw | src/App.js:15-32 | an empty pool changes nothing (no alert); otherwise `pool[Pick]` becomes current and the three flags reset |
| Practice.KanjiGradeDeck.AvailableCount | src/App.js:54-63 | the running count over the selected grades equals the pool length |
| Practice.KanjiGradeDeck.ToggleGrade | src/App.js:34-40 | every copy of the grade is dropped if present, else it is appended; no other grade's membership changes |
| Practice.KanjiGradeDeck.ToggleDisabled | src/App.js:42-52 | flips exactly this glyph |
| Practice.KanjiGradeDeck.ToggleReveal | src/App.js:149-173 | one reveal flag flips |
| Practice.KanjiGradeDeck.DisableAll | src/App.js:65-73 | the disabled set is replaced by the glyphs of the selected grades only, and the pool becomes empty |
| Practice.KanjiGradeDeck.EnableAll | src/App.js:75-77 | the disabled set becomes empty |
| Practice.SentenceKeyInjective | mobile/screens/SentencesScreen.js:72-81 | distinct positions have distinct `sentence-i` keys, so a toggle touches one sentence |
| Practice.EnabledIndices | mobile/screens/SentencesScreen.js:52-54 | exactly the positions below n whose key is not disabled, strictly increasing |
| Practice.SentencePool | mobile/screens/SentencesScreen.js:52-54 | the pool is the sentences at the enabled positions, in original order |
| Practice.SentencePoolMembers | mobile/screens/SentencesScreen.js:52-54 | a sentence is in the pool iff it stands at some position whose key is not disabled |
| Collections.FindIndex | mobile/screens/CharacterListScreen.js:668-670 | `findIndex`: -1 iff no element satisfies the test, else the first position that does |
| Practice.FirstMatch | mobile/screens/SentencesScreen.js:97-103 | `findIndex` result: -1 iff no equal sentence, else the first equal position |
| Practice.DrawnIndex | mobile/screens/SentencesScreen.js:61-64 | the data position of the drawn sentence: enabled, and holding `pool[Pick]` |
| Practice.ToggleDrawnRemovesIt | mobile/screens/SentencesScreen.js:240-245 | disabling the drawn position removes it, and only it, from the enabled positions |
| Practice.DuplicateSentenceToggleMissesDrawnCopy | mobile/screens/SentencesScreen.js:240-245 | with the same sentence at 0 and 1 and 0 disabled, the drawn copy is 1 but the button toggles the key of 0, re-enabling it |
| Practice.SentenceDeck.constructor | mobile/screens/SentencesScreen.js:12-20 | nothing disabled, no sentence, flags hidden |
| Practice.SentenceDeck.Draw | mobile/screens/SentencesScreen.js:51-70 | alerts iff the pool is empty, changing nothing; otherwise `pool[Pick]` becomes current, its enabled position is recorded and all flags reset |
| Practice.SentenceDeck.AvailableCount | mobile/screens/SentencesScreen.js:83-87 | the count equals the pool size, the number of enabled positions |
| Practice.SentenceDeck.SentenceIndex | mobile/screens/SentencesScreen.js:97-103 | -1 without a current sentence; otherwise the first position equal to it (found when present) |
| Practice.SentenceDeck.ToggleSentenceDisabled | mobile/screens/SentencesScreen.js:72-81 | flips exactly the key `sentence-index` |
| Practice.SentenceDeck.ToggleCurrentDisabled | mobile/screens/SentencesScreen.js:240-245 | corrected button: flips the key of the drawn position, which thereby leaves the pool |
| Practice.SentenceDeck.ToggleReveal | mobile/screens/SentencesScreen.js:150-225 | one reveal flag flips |
| Practice.SentenceDeck.Load | mobile/screens/SentencesScreen.js:23-36 | a stored array replaces the disabled set; nothing stored or unreadable keeps it |
| CharacterList.Tagged | mobile/screens/CharacterListScreen.js:30-34 | each word (or kanji) copied with its `level` set, same length and order |
| CharacterList.TagGrades | mobile/screens/CharacterListScreen.js:37-52 | the push loop yields grade 1 tagged 1 followed by grade 2 tagged 2 |
| CharacterList.HskLevelOne | mobile/screens/CharacterListScreen.js:125-126 | selecting level 1 of the combined HSK data gives exactly the tagged level 1 list, in order |
| CharacterList.AvailableLevels | mobile/screens/CharacterListScreen.js:104-115 | the offered levels are distinct, within 1..6, start with 1, and are empty exactly for sentences and unknown types |
| CharacterList.AllHskLevelsShowEverything | mobile/screens/CharacterListScreen.js:104-126 | selecting every offered HSK level shows the whole combined dataset in order |
| CharacterList.AllKanjiGradesShowEverything | mobile/screens/CharacterListScreen.js:104-135 | selecting every offered kanji grade shows the whole flattened list in order |
| CharacterList.CharacterStage | mobile/screens/CharacterListScreen.js:149-155 | 'single' keeps count 1, 'multi' count > 1, 'all' everything |
| CharacterList.Search | mobile/screens/CharacterListScreen.js:157-213 | blank (trimmed) query keeps everything; otherwise an item stays iff the trimmed lower-cased query occurs in some lower-cased field, missing fields read as "" |
| CharacterList.NoLevelsNoItems | mobile/screens/CharacterListScreen.js:118-125 | with no level selected every type, sentences aside, lists nothing (sentences then list per their own rule) |
| CharacterList.HskListing | mobile/screens/CharacterListScreen.js:125-126 | an HSK word is listed iff it is in the data, its level is selected, it passes the character filter and the search |
| CharacterList.TocflListing | mobile/screens/CharacterListScreen.js:127-133 | a TOCFL word is listed iff level 1 is selected and it passes the character filter and search |
| CharacterList.KanjiListing | mobile/screens/CharacterListScreen.js:134-135 | a kanji is listed iff its grade is selected and it matches the search; no character filter |
| CharacterList.SentenceListing | mobile/screens/CharacterListScreen.js:136-140 | a sentence is listed iff it stands at a position whose key is not disabled and it matches the search |
| CharacterList.SentenceRows | mobile/screens/CharacterListScreen.js:666-672 | corrected rows: a position is a row iff it is in range, its key is not disabled and its sentence matches the search |
| CharacterList.SentenceRowsShowListing | mobile/screens/CharacterListScreen.js:666-677 | a sentence is listed iff some row's position holds it: the corrected rows show exactly the listing |
| CharacterList.ToggleOwnRowHidesIt | mobile/screens/CharacterListScreen.js:438-451 | a row keyed by its own position shows as enabled, and its button hides that position and no other |
| CharacterList.BrowseDuplicateToggleMissesListedCopy | mobile/screens/CharacterListScreen.js:666-672 | as written, with two copies and position 0 disabled, the listed copy 1 is rendered with index 0: shown disabled, its button re-enables 0 and copy 1 stays listed |
| CharacterList.UnfilteredHsk | mobile/screens/CharacterListScreen.js:125-126 | with filter 'all' and a blank query the HSK list is the level filter in dataset order |
| CharacterList.UnfilteredTocfl | mobile/screens/CharacterListScreen.js:127-133 | with filter 'all' and a blank query the TOCFL list is the dataset or nothing |
| CharacterList.UnfilteredKanji | mobile/screens/CharacterListScreen.js:134-135 | with a blank query the kanji list is the grade filter in order |
| CharacterList.UnfilteredSentences | mobile/screens/CharacterListScreen.js:136-140 | with a blank query the sentence list is the enabled sentences in order |
| CharacterList.HskKeyInjective | mobile/screens/CharacterListScreen.js:287 | the key `${level}-${id}` names exactly one (level, id) pair |
| CharacterList.BrowseScreen.constructor | mobile/screens/CharacterListScreen.js:19-52 | type hsk, level [1], empty query, filter 'all', four empty disabled sets, data tagged and combined |
| CharacterList.BrowseScreen.ToggleLevel | mobile/screens/CharacterListScreen.js:218-226 | the level's membership flips (splice/push) and no other level's; nothing else changes |
| CharacterList.BrowseScreen.SelectType | mobile/screens/CharacterListScreen.js:228-246 | type set, filter reset to 'all', levels [1] for hsk/tocfl/kanji and [] otherwise (the first offered level) |
| CharacterList.BrowseScreen.ToggleHskDisabled | mobile/screens/CharacterListScreen.js:248-256 | flips one key; the listing itself is unchanged |
| CharacterList.BrowseScreen.ToggleTocflDisabled | mobile/screens/CharacterListScreen.js:258-266 | flips one id; the listing is unchanged |
| CharacterList.BrowseScreen.ToggleKanjiDisabled | mobile/screens/CharacterListScreen.js:268-276 | flips one glyph; the listing is unchanged |
| CharacterList.BrowseScreen.ToggleSentenceDisabled | mobile/screens/CharacterListScreen.js:438-447 | flips exactly the key `sentence-index` |
| CharacterList.BrowseScreen.Load | mobile/screens/CharacterListScreen.js:54-86 | in order HSK, TOCFL, kanji, sentences: a stored array replaces its set, nothing stored keeps it, and an unreadable entry stops the loading so later sets stay as they were |
| CharacterList.BrowseScreen.ClearFilters | mobile/screens/CharacterListScreen.js:278-282 | query "", filter 'all', levels [1]; type and disabled sets unchanged |
| CharacterList.BrowseScreen.SetSearchQuery | mobile/screens/CharacterListScreen.js:632 | only the query changes |
| CharacterList.BrowseScreen.SetCharacterFilter | mobile/screens/CharacterListScreen.js:599-615 | only the character filter changes |
| CharacterList.ChineseLevels | src/CharacterListPage.js:33-36 | in Chinese mode the level stage is everything iff 1 is selected, else nothing |
| CharacterList.PageCharacterStage | src/CharacterListPage.js:38-45 | the character filter applies only in Chinese mode |
| CharacterList.TermStage | src/CharacterListPage.js:47-63 | an empty term keeps everything; otherwise an item stays iff the lower-cased term occurs in one of the nine present fields; absent fields never match |
| CharacterList.OrElse | src/CharacterListPage.js:69-73 | JavaScript `or` of two strings: a present non-empty string, else the fallback |
| CharacterList.SortedListIsFilteredList | src/CharacterListPage.js:30-80 | the sorted list is a permutation of the filtered list |
| CharacterList.IdSortAscending | src/CharacterListPage.js:74-75 | when every item has an id the default sort gives ascending ids |
| CharacterList.IdSortWithoutIds | src/CharacterListPage.js:74-75 | items without ids (kanji) keep their grade order under the default sort |
| CharacterList.StringSortOrdered | src/CharacterListPage.js:66-73 | with a comparator whose sign flips on swapped arguments the string sorts are ordered by their key |
| CharacterList.ReadingDisplayParts | src/CharacterListPage.js:100-106 | kanji mode shows both readings separated by one space, or the one present reading alone |
| CharacterList.ListPage.constructor | src/CharacterListPage.js:7-11 | mode chinese, levels [1], filter 'all', empty term, sort by id |
| CharacterList.ListPage.GetData | src/CharacterListPage.js:14-27 | HSK data in Chinese mode, else grades 1..6 flattened in grade order |
| CharacterList.ListPage.FilteredData | src/CharacterListPage.js:30-80 | the filter stages followed by the sort chosen by `sortBy`; a permutation of the filtered items |
| CharacterList.ListPage.ToggleLevel | src/CharacterListPage.js:82-90 | the level's membership flips; nothing else changes |
| CharacterList.ListPage.SetMode | src/CharacterListPage.js:141-147 | only the mode changes |
| CharacterList.ListPage.SetCharacterFilter | src/CharacterListPage.js:211-223 | only the character filter changes |
| CharacterList.ListPage.SetSearchTerm | src/CharacterListPage.js:238 | only the term changes |
| CharacterList.ListPage.SetSortBy | src/CharacterListPage.js:247 | only the sort key changes |
| Levels.Truncated | scripts/check_all_levels.c:34-35 | the stored word is the first min(len, 99) bytes |
| Levels.WordList.constructor | scripts/check_all_levels.c:21-27 | an empty list with capacity 10000 |
| Levels.WordList.AddWord | scripts/check_all_levels.c:29-37 | the truncated word is appended and earlier words are unchanged; the array is reused when not full and doubled when full |
| Levels.WordList.Contains | scripts/check_all_levels.c:59-66 | true iff the query is a stored word |
| Levels.WordExists | scripts/check_all_levels.c:59-66 | the loop finds the query iff some stored word equals it byte for byte |
| Levels.ListedWords | scripts/check_all_levels.c:160-167 | the words kept are at most one per line, each under 100 bytes and comma-free |
| Levels.LoadLines | scripts/check_all_levels.c:158-167 | the header is skipped and each later line with a comma adds the part before it |
| Levels.CutAt | scripts/check_all_levels.c:162-165 | the prefix before the first occurrence of the byte, or all of the string |
| Levels.CutAtNoOccurrence | scripts/check_all_levels.c:251-254 | cutting at an absent byte leaves the string as it is |
| Levels.CutAtFirst | scripts/check_all_levels.c:162-165 | cutting at the first occurrence gives exactly what precedes it |
| Levels.Utf8Length | scripts/check_all_levels.c:40-46 | the length a lead byte announces is in 1..4 |
| Levels.Utf8LengthRanges | scripts/check_all_levels.c:40-46 | ASCII and continuation bytes give 1, 0xC0-0xDF 2, 0xE0-0xEF 3, 0xF0-0xF7 4, others 1 |
| Levels.ChineseLeadRange | scripts/check_all_levels.c:49-56 | the Chinese test holds iff the lead byte lies in 0xE4..0xE9 |
| Levels.LongestMatch | scripts/check_all_levels.c:86-102 | either 0 or a known span of length 3..checkLen, and no longer span of at least 3 bytes is known |
| Levels.Advance | scripts/check_all_levels.c:75-123 | a step that succeeds moves forward by at least one byte |
| Levels.GreedyChoice | scripts/check_all_levels.c:86-117 | at a Chinese position the chosen span is a known word and no longer span of at most 99 bytes is |
| Levels.NoChineseSegments | scripts/check_all_levels.c:77-80 | text without Chinese lead bytes always segments |
| Levels.UnknownCharacterFails | scripts/check_all_levels.c:119-121 | a Chinese position where no span of any length is known makes segmentation fail |
| Levels.ContainedInLevels | scripts/check_all_levels.c:94-100 | true iff the word is in one of the first maxLevel lists |
| Levels.LongestKnownSpan | scripts/check_all_levels.c:88-102 | the descending loop finds the longest known span, as `LongestMatch` |
| Levels.StepAt | scripts/check_all_levels.c:77-123 | one loop turn computes `Advance` |
| Levels.CanSegmentWithLevel | scripts/check_all_levels.c:69-127 | the loop's verdict equals the recursive segmentation specification |
| Levels.SegmentsStep | scripts/check_all_levels.c:119-123 | a failed step means no segmentation; a successful one reduces the question to the rest |
| Levels.LowestLevelFrom | scripts/check_all_levels.c:130-137 | either 0 or a level in range that segments, and no lower level in range segments |
| Levels.LowestLevel | scripts/check_all_levels.c:130-147 | the least level 1..levels at which the sentence segments, or 0 if none |
| Levels.FindLevel | scripts/check_all_levels.c:130-147 | `find_hsk_level`/`find_tocfl_level` return `LowestLevel` |
| Levels.NoChineseIsLevelOne | scripts/check_all_levels.c:130-137 | a sentence without Chinese characters is level 1 |
| Levels.SkipSpaces | scripts/check_all_levels.c:263 | the first non-space position at or after p |
| Levels.NextComma | scripts/check_all_levels.c:285 | the first comma at or after p, or the end |
| Levels.QuotedEnd | scripts/check_all_levels.c:274-277 | the first quote not followed by a quote, doubled quotes stepped over |
| Levels.NextField | scripts/check_all_levels.c:261-293 | one scanner turn consumes at least one byte |
| Levels.FieldsOf | scripts/check_all_levels.c:261-293 | at most `room` fields, and at least one from a non-empty rest |
| Levels.Fields | scripts/check_all_levels.c:257-293 | at most five fields, and none only for the empty line |
| Levels.NextFieldIsPiece | scripts/check_all_levels.c:268-292 | each field is a contiguous piece of the line (no unescaping) |
| Levels.FieldsArePieces | scripts/check_all_levels.c:257-293 | every field read from a line is a piece of it |
| Levels.SkipSpacesLoop | scripts/check_all_levels.c:263 | the loop computes `SkipSpaces` |
| Levels.QuotedEndLoop | scripts/check_all_levels.c:274-277 | the loop computes `QuotedEnd` |
| Levels.NextCommaLoop | scripts/check_all_levels.c:285 | the loop computes `NextComma` |
| Levels.ScanField | scripts/check_all_levels.c:262-292 | one turn computes `NextField` |
| Levels.SplitFields | scripts/check_all_levels.c:257-293 | the position-walking loop computes `Fields` |
| Levels.ScannedStep | scripts/check_all_levels.c:261-293 | one scanner turn keeps the loop invariant |
| Levels.FieldsOfStep | scripts/check_all_levels.c:261-293 | the fields of the rest are this field followed by the fields after it |
| Levels.ScannedDone | scripts/check_all_levels.c:261 | when the line is used up or five fields are read, the fields read are all there are |
| Levels.DigitByte | scripts/check_all_levels.c:310-312 | `%d` of a one-digit level is an ASCII digit |
| Levels.QuoteIfComma | scripts/check_all_levels.c:308-312 | the meaning is quoted exactly when it contains a comma |
| Levels.UnquotedBeforeComma | scripts/check_all_levels.c:284-290 | a plain field before a comma reads back as itself |
| Levels.UnquotedAtEnd | scripts/check_all_levels.c:284-290 | a plain field at the end of the line reads back as itself |
| Levels.QuotedBeforeComma | scripts/check_all_levels.c:269-282 | a quoted quote-free field before a comma reads back without its quotes |
| Levels.ReadMeaning | scripts/check_all_levels.c:308-312 | the meaning as written, quoted or not, reads back as it was |
| Levels.ReadFirstField | scripts/check_all_levels.c:308-312 | a field written like the meaning, then a comma, reads back and scanning continues with the rest |
| Levels.ReadLevels | scripts/check_all_levels.c:310-312 | the two level digits read back as two one-byte fields |
| Levels.ReadLineTail | scripts/check_all_levels.c:310-312 | meaning and levels read back |
| Levels.ReadLineMiddle | scripts/check_all_levels.c:310-312 | pinyin, meaning and levels read back |
| Levels.ReadOutputLine | scripts/check_all_levels.c:310-312 | the five fields of an output line read back as the values written |
| Levels.StripLine | scripts/check_all_levels.c:251-254 | stripping a line ending in its only line feed removes just that |
| Levels.StripOutputRow | scripts/check_all_levels.c:251-254 | stripping an output row gives the output line |
| Levels.OutputRowRoundTrip | scripts/check_all_levels.c:245-313 | reading an output row with the same scanner gives back sentence, pinyin, meaning and both level digits |
| Levels.ProcessRow | scripts/check_all_levels.c:245-313 | a row with fewer than three fields is skipped; otherwise the output row carries the first three fields and the lowest HSK (of 7) and TOCFL (of 5) levels of the sentence |
| HanViet.Find | scripts/add_hanviet_from_csv.py:53 | the first position holding the key, or none when no entry has it |
| HanViet.Lookup | scripts/add_hanviet_from_csv.py:94-95 | a found value is stored under the key; none means the key is absent |
| HanViet.FindFirst | scripts/add_hanviet_from_csv.py:53 | the first position holding the key is the one `Find` reports |
| HanViet.LookupAppend | scripts/add_hanviet_from_csv.py:51-58 | a lookup in `a + b` consults `b` only for keys `a` lacks |
| HanViet.Put | scripts/add_hanviet_from_csv.py:48 | `dict[k] = v`: an existing key keeps its place and takes the value, a new key goes last; afterwards k maps to v |
| HanViet.PutOther | scripts/add_hanviet_from_csv.py:48 | assignment leaves every other key's value as it was |
| HanViet.PutDistinct | scripts/add_hanviet_from_csv.py:48 | assignment keeps keys distinct |
| HanViet.KeyOf | scripts/add_hanviet_from_csv.py:46-47 | a reading key starts with its character and a pipe |
| HanViet.CharOnlyKey | scripts/add_hanviet_from_csv.py:52 | the character-only key also starts with its character and a pipe |
| HanViet.CharOnlyKeyInjective | scripts/add_hanviet_from_csv.py:52 | different characters have different character-only keys |
| HanViet.Readings | scripts/add_hanviet_from_csv.py:64-70 | at most one reading per table entry |
| HanViet.ReadingsMembers | scripts/add_hanviet_from_csv.py:64-70 | a value is a reading of c iff some key made of c, a pipe and a pinyin (not the star) holds it |
| HanViet.ReadingsAppend | scripts/add_hanviet_from_csv.py:64-70 | readings of `a + b` are those of `a` then those of `b` |
| HanViet.AllReadings | scripts/add_hanviet_from_csv.py:64-70 | the loop returns the readings in table order |
| HanViet.ReadingsStep | scripts/add_hanviet_from_csv.py:67-69 | one loop turn adds the entry's value iff it has a reading key |
| HanViet.ReplaceAllRemoves | scripts/add_hanviet_from_csv.py:35-37 | replacing a one-character string by "" removes every copy |
| HanViet.ReplaceAllAbsent | scripts/add_hanviet_from_csv.py:35-37 | a pattern that cannot occur changes nothing |
| HanViet.CleanReadingSpec | scripts/add_hanviet_from_csv.py:35-37 | a cleaned reading has no apostrophe; a reading without one is stored as it is |
| HanViet.SeenChars | scripts/add_hanviet_from_csv.py:40-41 | the seen characters are listed once each, in first-seen order |
| HanViet.LoadTable | scripts/add_hanviet_from_csv.py:15-61 | both loops together compute `Loaded` |
| HanViet.InsertedStep | scripts/add_hanviet_from_csv.py:28-48 | an accepted row assigns its cleaned reading to its key and records its character once; others change nothing |
| HanViet.FirstReading | scripts/add_hanviet_from_csv.py:55-58 | the search loop stops at the first reading, or finds none exactly when there are none |
| HanViet.SkippedRow | scripts/add_hanviet_from_csv.py:33 | a row with an empty char or reading adds nothing |
| HanViet.AcceptedRow | scripts/add_hanviet_from_csv.py:33-48 | an accepted row overwrites its key with the cleaned reading and no other key |
| HanViet.SeenCovered | scripts/add_hanviet_from_csv.py:40-48 | every seen character has a key of its own |
| HanViet.CoveredHasReading | scripts/add_hanviet_from_csv.py:53-58 | a covered character has a character-only key or at least one reading |
| HanViet.FallbackAppends | scripts/add_hanviet_from_csv.py:51-58 | the second pass only appends, and appends first readings |
| HanViet.ExtrasLookup | scripts/add_hanviet_from_csv.py:55-57 | an appended character-only key for c holds c's first reading |
| HanViet.LoadedShape | scripts/add_hanviet_from_csv.py:15-61 | the loaded table is the first-pass table followed by the appended fallback keys |
| HanViet.LoadedKeepsRows | scripts/add_hanviet_from_csv.py:53 | the second pass never changes a key the rows produced, character-only keys included |
| HanViet.LoadedHasCharOnlyKey | scripts/add_hanviet_from_csv.py:51-58 | after loading every accepted character has a character-only key |
| HanViet.LoadedFallbackValue | scripts/add_hanviet_from_csv.py:51-58 | a character-only key the rows did not give holds c's first reading in insertion order |
| HanViet.CharReadings | scripts/add_hanviet_from_csv.py:99-104 | one character-only reading, or "_", per character |
| HanViet.FindReading | scripts/add_hanviet_from_csv.py:77-78 | an empty `traditionalChinese` gives None |
| HanViet.FindReadingWithMultiple | scripts/add_hanviet_from_csv.py:73-109 | the procedure computes `FindReading` |
| HanViet.SpellOut | scripts/add_hanviet_from_csv.py:98-109 | the character loop computes `Spelled` |
| HanViet.OneCharacterReadings | scripts/add_hanviet_from_csv.py:85-90 | a single character with readings gives its distinct readings once each, in first-listed order, joined by "/" |
| HanViet.SpelledOut | scripts/add_hanviet_from_csv.py:97-109 | without a whole-word key a longer word fails iff every character misses |
| HanViet.LoadedCharactersAreFound | scripts/add_hanviet_from_csv.py:51-95 | every character the rows gave a reading is found in the loaded table |
| Composer.ClassifierBounds | scripts/process_sentences.py:54-68 | every ASCII character is punctuation or Latin; no CJK ideograph is |
| Composer.StringTestIsAll | scripts/process_sentences.py:71-80 | the string test holds iff the text is non-empty and every character passes |
| Composer.SourcesSnoc | scripts/process_sentences.py:112-148 | the characters behind the parts grow with each appended part |
| Composer.FlushSources | scripts/process_sentences.py:125-128 | flushing a Latin group keeps the characters behind the parts |
| Composer.StepSources | scripts/process_sentences.py:115-143 | one loop turn accounts for exactly the character consumed |
| Composer.GroupSources | scripts/process_sentences.py:112-148 | nothing of the sentence is lost or reordered by the grouping loop |
| Composer.PartsCoverSentence | scripts/process_sentences.py:112-148 | replacing each part by its characters gives back the cleaned sentence |
| Composer.FlushOk | scripts/process_sentences.py:146-148 | the final flush yields well-formed parts |
| Composer.StepOk | scripts/process_sentences.py:115-143 | one loop turn keeps parts well formed and the pending group Latin |
| Composer.GroupOk | scripts/process_sentences.py:112-148 | the loop's parts are well formed |
| Composer.PartsAreOk | scripts/process_sentences.py:112-148 | Latin groups are maximal non-empty ASCII alphanumeric runs, marks stay single, each ideograph becomes its reading or "_" |
| Composer.PlaceholderUnspaced | scripts/process_sentences.py:159-180 | no separator is ever inserted next to "_" |
| Composer.MarkUnspaced | scripts/process_sentences.py:159-180 | a punctuation mark gets no separator except before a Latin group |
| Composer.ReadingsSpaced | scripts/process_sentences.py:159-166 | two readings are separated by one space |
| Composer.LatinSpaced | scripts/process_sentences.py:167-174 | a Latin group and a reading are separated by a space in either order |
| Composer.LatinAfterMark | scripts/process_sentences.py:175-180 | a Latin group after a mark is spaced iff the mark is not Chinese punctuation |
| Composer.Texts | scripts/process_sentences.py:182 | the texts of the parts, one per part |
| Composer.ReadingsJoinedBySpaces | scripts/process_sentences.py:152-184 | a sequence of readings comes out joined by single spaces |
| Composer.Compose | scripts/process_sentences.py:88-96 | empty input, or input empty after cleaning, gives "" |
| Composer.ComposeSpellsOut | scripts/process_sentences.py:98-107 | the whole-word lookup is skipped for one character or when punctuation/Latin is present (or the key is missing): the result is the spaced parts |
| Composer.IdeographParts | scripts/process_sentences.py:138-143 | one part per ideograph |
| Composer.GroupIdeographs | scripts/process_sentences.py:131-143 | ideographs each contribute their own part |
| Composer.IdeographTexts | scripts/process_sentences.py:138-143 | the texts of ideograph parts are the characters' readings |
| Composer.SpacedIdeographs | scripts/process_sentences.py:112-184 | ideographs all with readings are spelled as the readings joined by spaces |
| Composer.ComposeIdeographs | scripts/process_sentences.py:83-184 | a sentence of ideographs all with readings, with no whole-word entry to use, is its readings joined by spaces |
| Composer.PreservedHanViet | process_cmn_sen_csv.py:79-180 | the procedure computes `Compose` |
| Composer.GroupParts | process_cmn_sen_csv.py:111-144 | the first loop computes `Parts` |
| Composer.SpacedStep | process_cmn_sen_csv.py:149-178 | spacing one more part appends its separator and text |
| Composer.SeparatorBefore | process_cmn_sen_csv.py:150-176 | the four spacing rules compute `Separator` |
| Composer.JoinPartsStep | process_cmn_sen_csv.py:149-178 | one turn of the second loop keeps the join equal to the parts spaced so far |
| Composer.JoinParts | process_cmn_sen_csv.py:148-180 | the second loop computes `Spaced` |
| Composer.SelectLevelOne | scripts/process_sentences.py:399-435 | the reading loop computes `Selected` |
| Composer.SelectedFromRows | scripts/process_sentences.py:409-422 | each kept item comes from a TOCFL level "1" row at its own 1-based index |
| Composer.SelectedIncreasing | scripts/process_sentences.py:399-422 | the indices of kept items strictly increase |
| Composer.SelectedKeeps | scripts/process_sentences.py:409-411 | a row at TOCFL level "1" is never dropped |
| Composer.SortByIndexKeepsOrder | scripts/process_sentences.py:474 | sorting by index leaves the collected items as they are |
| Composer.ReadCmnRows | process_cmn_sen_csv.py:291-316 | at most 100 rows, item k numbered k+1 and spelled with `Compose` |
| DataPrep.CleanCount | scripts/process_hsk7_json.py:119-128 | the count is at most the length of the text |
| DataPrep.CleanCountIsCjkFilter | scripts/process_hsk7_json.py:122-128 | the count is the number of U+4E00..U+9FFF characters of the cleaned text |
| DataPrep.CleanCountPlain | scripts/process_hsk_translations_parallel.py:133-142 | text without pipes or opening brackets has all its ideographs counted |
| DataPrep.CleanCountCutsAtPipe | scripts/process_tocfl_translations_parallel.py:97-100 | everything after the first ASCII pipe is ignored |
| DataPrep.PlainCount | count_characters.py:11-22 | 0 for "", else the number of ideographs, with no cleaning |
| DataPrep.SpaceRun | scripts/process_tocfl_translations_parallel.py:105 | the end of the whitespace run starting at i |
| DataPrep.NextIndex | scripts/process_tocfl_translations_parallel.py:105 | the first position of the character at or after `from` |
| DataPrep.AnnotationStart | scripts/process_tocfl_translations_parallel.py:105 | the leftmost position where the annotation pattern matches |
| DataPrep.CleanWordType | scripts/process_tocfl_translations_parallel.py:103-105 | the cleaned word type is never longer than the input |
| DataPrep.CleanWordTypeNoAnnotation | scripts/process_tocfl_translations_parallel.py:103-105 | a word without "(" is only stripped |
| DataPrep.CleanWordTypeDropsAnnotation | process_tocfl_translations_parallel.py:74-76 | a trailing `(…)` annotation and the whitespace around it are removed, leaving the stripped word |
| DataPrep.AnnotatedLayout | process_tocfl_translations_parallel.py:74-76 | where the parts of an annotated word sit |
| DataPrep.CleanWordTypeCutsAt | scripts/process_tocfl_translations_parallel.py:105 | when the first match starts at j the result is the stripped prefix before j |
| DataPrep.AnnotationHere | scripts/process_tocfl_translations_parallel.py:105 | the pattern matches where whitespace, "(", the first ")" and trailing whitespace line up |
| DataPrep.NoAnnotationBefore | scripts/process_tocfl_translations_parallel.py:105 | no match starts in a prefix without "(" not ending in whitespace |
| DataPrep.SpaceRunStops | scripts/process_tocfl_translations_parallel.py:105 | a whitespace run stops before a non-space character |
| DataPrep.TranslateText | scripts/process_tocfl_translations_parallel.py:71-88 | "" for empty input; otherwise the first translation, or "" when there is none |
| DataPrep.GetJyutping | scripts/process_tocfl_translations_parallel.py:91-94 | "" for empty input without calling the romaniser |
| DataPrep.EmptyTextNeedsNoService | scripts/process_tocfl_translations_parallel.py:73-74 | on "" any two backends and romanisers give the same result |
| DataPrep.WithHanViet | scripts/process_tocfl_translations_parallel.py:160-162 | only `hanviet` changes; it is always set, and is "" when no reading is found |
| DataPrep.WithHanVietSettles | scripts/process_tocfl_translations_parallel.py:160-162 | an entry without traditional text gets ""; a second pass changes nothing |
| DataPrep.AddHanViet | scripts/process_tocfl_translations_parallel.py:156-162 | every entry, in order, gets `WithHanViet` |
| DataPrep.Hsk7Traditional | scripts/process_hsk7_json.py:183-187 | the first form's traditional when present, else the simplified word; empty only when the simplified word is |
| DataPrep.Hsk7Pinyin | scripts/process_hsk7_json.py:191-197 | the first form's pinyin when present, else "" |
| DataPrep.Hsk7English | scripts/process_hsk7_json.py:201-206 | "" without meanings, else their ", " join |
| DataPrep.Hsk7EnglishHasEveryMeaning | scripts/process_hsk7_json.py:201-206 | every meaning appears in the English text |
| DataPrep.TranslateBatch | scripts/process_hsk7_json.py:153-157 | one "" per text when the API returns no translations, otherwise the API's answer unchanged; the result covers every text iff the batch is answered in full |
| DataPrep.Traditionals | scripts/process_hsk7_json.py:177-188 | one traditional form per item, in order |
| DataPrep.ProcessHsk7Batch | scripts/process_hsk7_json.py:165-238 | fails (the index error) iff the answer has fewer translations than the batch has items; otherwise one entry per item, entry i with id `batch*200 + i + 1` and the i-th translation |
| DataPrep.BuildHsk7Entries | scripts/process_hsk7_json.py:216-233 | the second loop fails iff there are fewer Vietnamese texts than items, and otherwise builds `EntriesOfLists` |
| DataPrep.EntriesOfLists | scripts/process_hsk7_json.py:216-233 | one entry per position of the field lists |
| DataPrep.ListsMakeHsk7Entries | scripts/process_hsk7_json.py:171-233 | the entries from the field lists are the per-item entries |
| DataPrep.Hsk7Batch | scripts/process_hsk7_json.py:273-275 | batch b is `items[b*200 : min((b+1)*200, n)]` |
| DataPrep.PlaceInBatch | scripts/process_hsk7_json.py:223 | the place of position k within its batch is below 200 |
| DataPrep.BatchPosition | scripts/process_hsk7_json.py:223 | batch and place recompose the position |
| DataPrep.ProcessHsk7 | scripts/process_hsk7_json.py:241-294 | the run stops with nothing written iff some batch is answered short; otherwise one entry per item, in input order, with id k+1, its batch's translation and its Han-Viet reading |
| DataPrep.Hsk7ExtendEntries | scripts/process_hsk7_json.py:272-279 | a batch's entries extend the numbered prefix |
| DataPrep.Hsk7Numbered | scripts/process_hsk7_json.py:285-294 | the complete numbered list with readings is what the script promises |
| DataPrep.Hsk7Extend | scripts/process_hsk7_json.py:272-279 | appending a batch keeps every entry at its item's position |
| DataPrep.Hsk7BatchPlaces | scripts/process_hsk7_json.py:223 | batch b's entries sit at positions `b*200 + i` with their items' ids |
| DataPrep.Hsk7Position | scripts/process_hsk7_json.py:273-275 | place i of batch b is position `b*200 + i` |
| DataPrep.HskEntry | scripts/process_hsk_translations_parallel.py:145-185 | id, simplified, pinyin and English come from the row; the character count is at most the word's length |
| DataPrep.ProcessHskCsv | scripts/process_hsk_translations_parallel.py:243-276 | one entry per row, in order, each with its Han-Viet reading |
| DataPrep.ProcessTocflCsv | scripts/process_tocfl_translations_parallel.py:108-153 | rows with an empty cleaned word are skipped and the kept rows are numbered 1, 2, … |
| DataPrep.TocflKeepsEveryWord | scripts/process_tocfl_translations_parallel.py:120-151 | when every row has a word, entry k comes from row k with id k+1 |
| DataPrep.TocflSkipsOnlyEmptyWords | scripts/process_tocfl_translations_parallel.py:124-125 | kept and skipped rows add up to all rows |
| DataPrep.ProcessRootTocfl | process_tocfl_translations_parallel.py:135-178 | only the first ten rows; entry k has id k+1 and the cleaned word of row k |
| DataPrep.EntryCount | count_characters.py:51-52 | a missing or null `simplifiedChinese` counts 0 |
| DataPrep.Counted | count_characters.py:48-55 | the copy with `characterCount` added; no other key changes |
| DataPrep.ProcessHskData | count_characters.py:43-62 | one counted copy per entry, in order, and the running total |
| DataPrep.TotalIsSumOfCounts | count_characters.py:43-62 | the total is the sum of the written counts |
| Text.CjkIsNotSpace | scripts/process_sentences.py:60-66 | no ideograph is whitespace |
| Text.TrimIsSlice | mobile/screens/CharacterListScreen.js:158-159 | trimming keeps one contiguous slice with non-space ends and drops only spaces |
| Text.TrimIdempotent | mobile/screens/CharacterListScreen.js:158-159 | trimming twice is trimming once |
| Text.TrimOfSpaceless | mobile/screens/CharacterListScreen.js:158-159 | a string without spaces is its own trim |
| Text.StripIsTrim | scripts/add_hanviet_from_csv.py:29-31 | Python `strip()` is the trim with Python's whitespace |
| Text.ContainsOne | mobile/screens/CharacterListScreen.js:308 | a one-character string occurs iff that character does |
| Text.FindIsContains | mobile/screens/CharacterListScreen.js:170-176 | the scanning search agrees with substring containment |
| Text.BeforeFirstSpec | scripts/add_hanviet_from_csv.py:81 | `split(sep)[0]` stops at the first separator, or keeps everything |
| Text.BeforeFirstHasNoSeparator | scripts/add_hanviet_from_csv.py:81 | the kept part never contains the separator |
| Text.RemoveBracketedNoOpen | scripts/add_hanviet_from_csv.py:82 | text without an opening bracket passes through |
| Text.RemoveBracketedSubsequence | scripts/add_hanviet_from_csv.py:82 | bracket removal only deletes characters: the result's multiset lies within the input's |
| Text.CleanWord | scripts/add_hanviet_from_csv.py:81-82 | cleaning (pipe cut, bracket removal, strip) never lengthens the word |
| Text.CountCjk | count_characters.py:21-22 | at most the length of the text |
| Text.CountCjkTrim | scripts/process_hsk7_json.py:124 | stripping never changes the ideograph count |
| Text.NatToStringRoundTrip | mobile/screens/SentencesScreen.js:74 | the decimal numeral of n reads back as n |
| Text.NumberPairInjective | mobile/screens/CharacterListScreen.js:287 | `${a}-${b}` determines a and b |
| Text.PrefixedNumberInjective | mobile/screens/SentencesScreen.js:74 | `sentence-${i}` determines i |
| Text.JoinContainsParts | scripts/add_hanviet_from_csv.py:90 | every part occurs in the joined text |
| Collections.FilterAppend | mobile/screens/CharacterListScreen.js:125-153 | filtering distributes over concatenation |
| Collections.FilterKeepsAll | mobile/screens/CharacterListScreen.js:149-155 | nothing is dropped when everything passes |
| Collections.FilterSplitsLength | mobile/screens/KanjiScreen.js:56-58 | kept and dropped elements add up to the list |
| Collections.FlipTwice | mobile/screens/HSKScreen.js:52-60 | toggling a set member twice restores the set |
| Collections.ToggleFirstCounts | mobile/screens/CharacterListScreen.js:218-226 | the splice/push toggle removes or adds exactly one copy |
| Collections.ToggleFirstFlips | mobile/screens/CharacterListScreen.js:218-226 | on a duplicate-free list the toggle flips membership of x only, and keeps the list duplicate-free |
| Collections.ToggleFirstTwice | mobile/screens/CharacterListScreen.js:218-226 | toggling twice gives back the same elements |
| Collections.Dedupe | scripts/add_hanviet_from_csv.py:89 | `dict.fromkeys`: no duplicates and the same elements |
| Collections.DedupeKeepsFirstOrder | scripts/add_hanviet_from_csv.py:89 | elements stay in order of first occurrence |
| Collections.ToggleAllFlips | src/App.js:34-40 | every copy goes or one is appended; no other membership changes |
| Collections.ToggleAllTwiceFromAbsent | src/App.js:34-40 | adding then removing a grade restores the list exactly |
| Collections.RangeMembers | src/CharacterListPage.js:19-25 | an element is in the flattened grades iff some grade in range holds it |
| Collections.ConcatRange | mobile/screens/KanjiScreen.js:13-18 | the grade loop builds the grades lo..hi in order, missing ones skipped |
| Collections.ConcatMembers | src/App.js:16-23 | an element is in the selected grades' concatenation iff some selected grade holds it |
| Collections.KeepNumberedKeeps | scripts/process_sentences.py:399-413 | no row that passes the filter is dropped |
| Collections.NumberedAppend | scripts/process_hsk7_json.py:279 | a numbered list grows by a run numbered after it |
| Collections.BatchCount | scripts/process_hsk7_json.py:265 | batch b exists iff `b*size < n`: the batches cover the items and no more |
| Collections.InBatches | scripts/process_hsk_translations_parallel.py:252-259 | the batch loop yields `f(items[k], k+1)` at every position k: the batches partition the items in order |
| Sorting.Sort | src/CharacterListPage.js:66-77 | the sort result is a permutation of its input |
| Sorting.SortSorted | src/CharacterListPage.js:66-77 | with an antisymmetric comparator the result is sorted |
| Sorting.SortAllEqual | src/CharacterListPage.js:66-77 | a comparator that finds all equal leaves the order (stability) |
| Sorting.SortOfOrdered | scripts/process_sentences.py:474 | an already ordered list is left as it is |

## Left out

- Rendering, styles and navigation (all JSX), and the tone, settings and home screens: presentation only.
- Persistence writes (`AsyncStorage.setItem` on every change) and JSON encoding: loads are modelled by the `Stored` datatype, saves are platform I/O.
- `Math.random`, `Alert`/`alert`, `Clipboard`, `setTimeout`: the draw takes `u` in [0, 1) as a parameter and reports the alert as a boolean; the rest is platform I/O.
- Google/Microsoft translation calls, `pinyin_jyutping`, aiohttp, asyncio, ThreadPoolExecutor and sleeps: foreign services and concurrency, taken as function parameters; the order in which parallel tasks finish is not modelled (results are gathered in task order).
- `scripts/process_sentences.py` lines 302-380 (the async batch that fetches traditional text and then its Han-Viet spelling): the traditional text comes from a translation service, so only the composer it calls is modelled.
- `scripts/check_all_levels.c`: header rewrite (226-239), level histograms and report (304-305, 341-366), progress bar (317-329), file replacement (339-340) and file I/O: I/O and floating point.
- `scripts/check_all_levels.c`: `malloc`/`realloc` failure and `fgets` splitting lines longer than 9999 bytes are not modelled; every line is assumed to fit the buffer, so the `strncpy` to 9999 bytes copies whole fields.
- The float average in `count_characters.py` and the printed statistics: floating point and output.
- `localeCompare` and `toLowerCase`: locale rules are parameters (`compare`, `lower`); `Array.prototype.sort` is modelled by a stable insertion sort, which agrees with the engine's stable sort for comparators consistent on the data.
- Python `isalnum` beyond ASCII: a parameter `wide`.
- Regular-expression engine semantics: each pattern is restated as explicit string functions (pipe cut, lazy bracket removal, trailing annotation, CJK range).
- The full-width pipe and bracket literals in `scripts/add_hanviet_from_csv.py:81-82` and `scripts/process_hsk7_json.py:122-123` appear mis-encoded; they are kept as the code points the files spell, and only the ASCII `|`, `(` and `)` cases are reasoned about in detail.
- `getCharacterDisplay` (`src/CharacterListPage.js:92-98`): a field read with nothing to prove.
- `process_hsk_with_hanviet` in `scripts/add_hanviet_from_csv.py`: printing and a no-match report file around the modelled lookup.
- `mobile/context/*`, `process_kanji_translations.py`, the root `process_hsk_translations_parallel.py`, `scripts/check_hsk_levels.py` and the test scripts: state holders, API glue and reporting.
- CharacterList.Search: the search is stated over a model of each item's fields as `Option<string>`; how JavaScript coerces non-string values to strings is not modelled.
- DataPrep.CleanWordType: `$` in the pattern also matches before a final line feed; words are assumed to hold no line feed there.
- CSV rows (`HanViet.Row`, `Composer.SentenceRow`, `Composer.CmnRow`) always hold every field: a row with a missing column makes `csv.DictReader` give `None`, and the `.strip()` in `scripts/add_hanviet_from_csv.py:29-31`, `scripts/process_sentences.py:403-407` and `process_cmn_sen_csv.py:297-299` would raise `AttributeError`; that failure is not modelled.
- HanViet.KeyOf: characters are read as they come from the CSV; a character that itself contains a pipe would make its key ambiguous, and the model does not claim a key belongs to one character only.
- Text.CleanWord: the lazy `.*?` does not cross a line feed; that is modelled, but other regex flags are not.

## Findings

| source | as written | input that shows it | evidently intended | confidence | as-written member | corrected member |
|---|---|---|---|---|---|---|
| mobile/screens/SentencesScreen.js:240-245 | the Disable button toggles `sentence-${getSentenceIndex()}`, the first sentence with the same text | sentences [Hello, Hello], position 0 disabled, draw with u = 0: position 1 is shown, the button re-enables position 0 and position 1 stays drawable | toggle the key of the position that was drawn | not executed | Practice.DuplicateSentenceToggleMissesDrawnCopy | Practice.SentenceDeck.ToggleCurrentDisabled |
| mobile/screens/CharacterListScreen.js:666-672 | each listed sentence is rendered with `index` set to the first data position with the same text, and its button (line 492) toggles `sentence-${index}` | sentences [Hello, Hello], position 0 disabled, sentence list: the copy at position 1 is listed but shown as disabled, and its button re-enables position 0 while position 1 stays listed | render each row with its own data position | not executed | CharacterList.BrowseDuplicateToggleMissesListedCopy | CharacterList.ToggleOwnRowHidesIt |
