/**
 * The Han-Viet spelling of a sentence in `scripts/process_sentences.py`, and the same
 * `get_hanviet_with_preserved_chars` copied into `process_cmn_sen_csv.py`. The sentence is
 * spelled character by character. Runs of ASCII letters and digits stay together as one Latin
 * group, punctuation stays as it is, and an ideograph takes its `char|*` reading (or "_" when
 * the table has none). A space is then put between parts under four rules.
 *
 * Also here: the row selection of both scripts. The sentences script keeps the rows at TOCFL
 * level "1" and sorts by row index. The cmn script stops after `MAX_ROWS` rows.
 */
module Composer {
  import opened Wrappers
  import opened Text
  import opened HanViet
  import Sorting
  import opened Collections

  // ---------------------------------------------------------------------------
  // Character classes
  // ---------------------------------------------------------------------------

  /**
   * The mark string of `is_punctuation_or_latin`:
   * `'，。！？；：、""' "（）【】《》〈〉「」『』〔〕…—–·～"`, whose two quotes are ASCII `"`.
   */
  const ChinesePunctuation: string :=
    "\U{FF0C}\U{3002}\U{FF01}\U{FF1F}\U{FF1B}\U{FF1A}\U{3001}\"\"\U{FF08}\U{FF09}\U{3010}\U{3011}\U{300A}\U{300B}"
    + "\U{3008}\U{3009}\U{300C}\U{300D}\U{300E}\U{300F}\U{3014}\U{3015}\U{2026}\U{2014}\U{2013}\U{B7}\U{FF5E}"

  /**
   * Python's `str.isalnum()` on one character. On ASCII it holds for the letters and digits;
   * beyond ASCII it follows the Unicode database, given here as `wide`.
   */
  predicate IsAlnum(c: char, wide: char -> bool) {
    if (c as int) < 128 then IsAsciiAlnum(c) else wide(c)
  }

  /** The test `is_punctuation_or_latin` applies to a string of length 1. */
  predicate PunctOrLatinChar(c: char, wide: char -> bool) {
    if IsCjk(c) then false
    else if c in ChinesePunctuation then true
    else IsAlnum(c, wide) || PySpace(c) || (c as int) < 128
  }

  /** `is_punctuation_or_latin(char)`. */
  predicate IsPunctuationOrLatin(s: string, wide: char -> bool) {
    |s| == 1 && PunctOrLatinChar(s[0], wide)
  }

  /** `is_punctuation_or_latin_string(text)`. */
  predicate IsPunctuationOrLatinString(text: string, wide: char -> bool) {
    if text == "" then false
    else if |text| == 1 then IsPunctuationOrLatin(text, wide)
    else forall k :: 0 <= k < |text| ==> IsPunctuationOrLatin([text[k]], wide)
  }

  /** Every ASCII character is punctuation or Latin, and no ideograph is. */
  lemma ClassifierBounds(c: char, wide: char -> bool)
    ensures (c as int) < 128 ==> IsPunctuationOrLatin([c], wide)
    ensures IsCjk(c) ==> !IsPunctuationOrLatin([c], wide)
  {
  }

  /** The one-character shortcut agrees with the general case: a string passes iff it is non-empty and each character does. */
  lemma StringTestIsAll(text: string, wide: char -> bool)
    ensures IsPunctuationOrLatinString(text, wide)
      <==> text != "" && forall k :: 0 <= k < |text| ==> IsPunctuationOrLatin([text[k]], wide)
  {
    if |text| == 1 {
      assert [text[0]] == text;
    }
  }

  // ---------------------------------------------------------------------------
  // Parts
  // ---------------------------------------------------------------------------

  /**
   * An element of `result_parts`: the text put out, the flags `is_punct_or_latin` and
   * `is_latin_or_numeral`, and the characters of the sentence the part stands for.
   */
  datatype Part = Part(text: string, punctOrLatin: bool, latin: bool, source: string)

  /** `char.isalnum() and ord(char) < 128`. */
  predicate IsLatinOrNumeral(c: char, wide: char -> bool) {
    IsAlnum(c, wide) && (c as int) < 128
  }

  /** `if current_latin_group: result_parts.append((latin_group, True, True))`. */
  function Flush(parts: seq<Part>, group: string): seq<Part> {
    if group != [] then parts + [Part(group, true, true, group)] else parts
  }

  /** One iteration of the first loop of `get_hanviet_with_preserved_chars` on the character `c`. */
  function Step(c: char, parts: seq<Part>, group: string, t: Table, wide: char -> bool): (seq<Part>, string) {
    if PunctOrLatinChar(c, wide) && IsLatinOrNumeral(c, wide) then (parts, group + [c])
    else if PunctOrLatinChar(c, wide) then (Flush(parts, group) + [Part([c], true, false, [c])], [])
    else (Flush(parts, group) + [Part(CharReading(t, c), false, false, [c])], [])
  }

  /** The first loop, from the state `(parts, group)` over the rest `s`, and the flush after it. */
  function Group(s: string, parts: seq<Part>, group: string, t: Table, wide: char -> bool): seq<Part>
    decreases |s|
  {
    if s == [] then Flush(parts, group)
    else
      var next := Step(s[0], parts, group, t, wide);
      Group(s[1..], next.0, next.1, t, wide)
  }

  function Parts(w: string, t: Table, wide: char -> bool): seq<Part> {
    Group(w, [], [], t, wide)
  }

  /** The characters the parts stand for, in order. */
  function Sources(parts: seq<Part>): string {
    if parts == [] then "" else Sources(parts[..|parts| - 1]) + parts[|parts| - 1].source
  }

  lemma SourcesSnoc(parts: seq<Part>, p: Part)
    ensures Sources(parts + [p]) == Sources(parts) + p.source
  {
    assert (parts + [p])[..|parts|] == parts;
  }

  lemma FlushSources(parts: seq<Part>, group: string)
    ensures Sources(Flush(parts, group)) == Sources(parts) + group
  {
    if group != [] {
      SourcesSnoc(parts, Part(group, true, true, group));
    } else {
      assert Sources(parts) + group == Sources(parts);
    }
  }

  lemma StepSources(c: char, parts: seq<Part>, group: string, t: Table, wide: char -> bool)
    ensures var next := Step(c, parts, group, t, wide); Sources(next.0) + next.1 == Sources(parts) + group + [c]
  {
    var next := Step(c, parts, group, t, wide);
    if PunctOrLatinChar(c, wide) && IsLatinOrNumeral(c, wide) {
      assert Sources(parts) + (group + [c]) == Sources(parts) + group + [c];
    } else {
      var p := next.0[|next.0| - 1];
      assert next.0 == Flush(parts, group) + [p] && p.source == [c];
      SourcesSnoc(Flush(parts, group), p);
      FlushSources(parts, group);
      assert Sources(next.0) + next.1 == Sources(parts) + group + [c];
    }
  }

  /** Nothing of the sentence is lost or reordered: the parts stand for the pending group and the rest, in order. */
  lemma {:induction false} GroupSources(s: string, parts: seq<Part>, group: string, t: Table, wide: char -> bool)
    ensures Sources(Group(s, parts, group, t, wide)) == Sources(parts) + group + s
    decreases |s|
  {
    if s == [] {
      FlushSources(parts, group);
      assert Sources(parts) + group + s == Sources(parts) + group;
    } else {
      var next := Step(s[0], parts, group, t, wide);
      GroupSources(s[1..], next.0, next.1, t, wide);
      StepSources(s[0], parts, group, t, wide);
      assert s == [s[0]] + s[1..];
      SeqAssoc(Sources(parts) + group, [s[0]], s[1..]);
    }
  }

  /** Putting the characters back in place of the parts gives the cleaned sentence. */
  lemma PartsCoverSentence(w: string, t: Table, wide: char -> bool)
    ensures Sources(Parts(w, t, wide)) == w
  {
    GroupSources(w, [], [], t, wide);
    assert Sources([]) + [] + w == w;
  }

  /**
   * What each kind of part holds: a Latin group is a non-empty run of ASCII letters and digits,
   * put out as it is. Other punctuation is one character put out as it is. An ideograph (or any
   * character that is neither) is put out as its reading or "_".
   */
  predicate PartOk(p: Part, t: Table, wide: char -> bool) {
    if p.latin then
      p.punctOrLatin && p.text == p.source && p.source != []
      && forall k :: 0 <= k < |p.source| ==> IsLatinOrNumeral(p.source[k], wide)
    else if p.punctOrLatin then
      p.text == p.source && |p.source| == 1 && PunctOrLatinChar(p.source[0], wide) && !IsLatinOrNumeral(p.source[0], wide)
    else
      |p.source| == 1 && !PunctOrLatinChar(p.source[0], wide) && p.text == CharReading(t, p.source[0])
  }

  /** Every part is well formed, and no Latin group directly follows another: the groups are maximal runs. */
  predicate PartsOk(parts: seq<Part>, t: Table, wide: char -> bool) {
    (forall k :: 0 <= k < |parts| ==> PartOk(parts[k], t, wide))
    && forall k :: 0 < k < |parts| ==> !(parts[k - 1].latin && parts[k].latin)
  }

  /** The state between iterations: the pending group is Latin, and the last part stored is not a Latin group. */
  predicate GroupState(parts: seq<Part>, group: string, t: Table, wide: char -> bool) {
    PartsOk(parts, t, wide)
    && (forall k :: 0 <= k < |group| ==> IsLatinOrNumeral(group[k], wide))
    && (parts != [] ==> !parts[|parts| - 1].latin)
  }

  lemma FlushOk(parts: seq<Part>, group: string, t: Table, wide: char -> bool)
    requires GroupState(parts, group, t, wide)
    ensures PartsOk(Flush(parts, group), t, wide)
  {
  }

  lemma StepOk(c: char, parts: seq<Part>, group: string, t: Table, wide: char -> bool)
    requires GroupState(parts, group, t, wide)
    ensures var next := Step(c, parts, group, t, wide); GroupState(next.0, next.1, t, wide)
  {
    if !(PunctOrLatinChar(c, wide) && IsLatinOrNumeral(c, wide)) {
      FlushOk(parts, group, t, wide);
      var p := if PunctOrLatinChar(c, wide) then Part([c], true, false, [c]) else Part(CharReading(t, c), false, false, [c]);
      var f := Flush(parts, group);
      assert Step(c, parts, group, t, wide) == (f + [p], []);
      assert PartOk(p, t, wide);
      assert forall k :: 0 <= k < |f| ==> (f + [p])[k] == f[k];
    }
  }

  lemma {:induction false} GroupOk(s: string, parts: seq<Part>, group: string, t: Table, wide: char -> bool)
    requires GroupState(parts, group, t, wide)
    ensures PartsOk(Group(s, parts, group, t, wide), t, wide)
    decreases |s|
  {
    if s == [] {
      FlushOk(parts, group, t, wide);
    } else {
      StepOk(s[0], parts, group, t, wide);
      var next := Step(s[0], parts, group, t, wide);
      GroupOk(s[1..], next.0, next.1, t, wide);
    }
  }

  /** The parts of any sentence are well formed, and its Latin groups are maximal. */
  lemma PartsAreOk(w: string, t: Table, wide: char -> bool)
    ensures PartsOk(Parts(w, t, wide), t, wide)
  {
    GroupOk(w, [], [], t, wide);
  }

  // ---------------------------------------------------------------------------
  // Spacing
  // ---------------------------------------------------------------------------

  /** A reading found in the table: neither punctuation nor Latin, and not the "_" placeholder. */
  predicate IsReading(p: Part) {
    p.text != "_" && !p.punctOrLatin
  }

  /** What the second loop puts before `cur` when `prev` precedes it. */
  function Separator(prev: Part, cur: Part): string {
    if IsReading(cur) && IsReading(prev) then " "
    else if cur.latin && IsReading(prev) then " "
    else if prev.latin && IsReading(cur) then " "
    else if cur.latin && prev.punctOrLatin then (if !Contains(ChinesePunctuation, prev.text) then " " else "")
    else ""
  }

  /** `"".join(final_parts)`: every part, each but the first preceded by its separator. */
  function Spaced(parts: seq<Part>): string {
    if parts == [] then ""
    else if |parts| == 1 then parts[0].text
    else Spaced(parts[..|parts| - 1]) + Separator(parts[|parts| - 2], parts[|parts| - 1]) + parts[|parts| - 1].text
  }

  /** The "_" put out for an ideograph the table has no reading for. */
  predicate IsPlaceholder(p: Part) {
    p.text == "_" && !p.punctOrLatin && !p.latin
  }

  /** The placeholder never gets a separator on either side. */
  lemma PlaceholderUnspaced(prev: Part, cur: Part)
    requires IsPlaceholder(prev) || IsPlaceholder(cur)
    ensures Separator(prev, cur) == ""
  {
  }

  /** A punctuation mark gets no separator on either side, except before a Latin group. */
  lemma MarkUnspaced(mark: Part, other: Part)
    requires mark.punctOrLatin && !mark.latin
    ensures Separator(other, mark) == ""
    ensures !other.latin ==> Separator(mark, other) == ""
  {
  }

  /** Two readings are separated by one space. */
  lemma ReadingsSpaced(prev: Part, cur: Part)
    requires IsReading(prev) && IsReading(cur)
    ensures Separator(prev, cur) == " "
  {
  }

  /** A Latin group is set off by a space from a reading on either side. */
  lemma LatinSpaced(reading: Part, latin: Part)
    requires IsReading(reading) && latin.latin
    ensures Separator(reading, latin) == " " && Separator(latin, reading) == " "
  {
  }

  /**
   * A Latin group after a punctuation mark gets a space exactly when the mark is not one of the
   * Chinese marks (or the ASCII `"`).
   */
  lemma LatinAfterMark(mark: Part, latin: Part, c: char)
    requires mark.punctOrLatin && !mark.latin && mark.text == [c] && latin.latin
    ensures Separator(mark, latin) == " " <==> c !in ChinesePunctuation
  {
    ContainsOne(ChinesePunctuation, c);
  }

  function Texts(parts: seq<Part>): (r: seq<string>)
    ensures |r| == |parts| && forall k :: 0 <= k < |parts| ==> r[k] == parts[k].text
  {
    seq(|parts|, k requires 0 <= k < |parts| => parts[k].text)
  }

  /** A sentence made only of readings is its readings separated by single spaces. */
  lemma {:induction false} ReadingsJoinedBySpaces(parts: seq<Part>)
    requires forall k :: 0 <= k < |parts| ==> IsReading(parts[k])
    ensures Spaced(parts) == Join(Texts(parts), " ")
  {
    if |parts| > 1 {
      var init := parts[..|parts| - 1];
      ReadingsJoinedBySpaces(init);
      assert Texts(parts) == Texts(init) + [parts[|parts| - 1].text];
      JoinSnoc(Texts(init), parts[|parts| - 1].text, " ");
    }
  }

  // ---------------------------------------------------------------------------
  // The whole function
  // ---------------------------------------------------------------------------

  /** `any(is_punctuation_or_latin(c) for c in traditional_clean)`. */
  predicate HasPunctOrLatin(w: string, wide: char -> bool) {
    exists k :: 0 <= k < |w| && PunctOrLatinChar(w[k], wide)
  }

  /** What `get_hanviet_with_preserved_chars(traditional, hanviet_data)` returns. */
  function Compose(traditional: string, t: Table, wide: char -> bool): (r: string)
    ensures traditional == "" || CleanWord(traditional, FullWidth) == "" ==> r == ""
  {
    if traditional == "" then ""
    else
      var w := CleanWord(traditional, FullWidth);
      if w == "" then ""
      else if !HasPunctOrLatin(w, wide) && |w| > 1 && Lookup(t, CharOnlyKey(w)).Some? then Lookup(t, CharOnlyKey(w)).value
      else Spaced(Parts(w, t, wide))
  }

  /** The whole-word reading is used only for words of several characters with no punctuation or Latin. */
  lemma ComposeSpellsOut(traditional: string, t: Table, wide: char -> bool)
    requires traditional != "" && CleanWord(traditional, FullWidth) != ""
    requires var w := CleanWord(traditional, FullWidth);
      |w| == 1 || HasPunctOrLatin(w, wide) || Lookup(t, CharOnlyKey(w)).None?
    ensures Compose(traditional, t, wide) == Spaced(Parts(CleanWord(traditional, FullWidth), t, wide))
  {
  }

  /** The parts of a run of ideographs: one reading (or "_") each. */
  function IdeographParts(s: string, t: Table): (r: seq<Part>)
    ensures |r| == |s|
  {
    seq(|s|, k requires 0 <= k < |s| => Part(CharReading(t, s[k]), false, false, [s[k]]))
  }

  lemma {:induction false} GroupIdeographs(s: string, parts: seq<Part>, t: Table, wide: char -> bool)
    requires forall k :: 0 <= k < |s| ==> IsCjk(s[k])
    ensures Group(s, parts, [], t, wide) == parts + IdeographParts(s, t)
    decreases |s|
  {
    if s == [] {
      assert parts + IdeographParts(s, t) == parts;
    } else {
      var p := Part(CharReading(t, s[0]), false, false, [s[0]]);
      assert Step(s[0], parts, [], t, wide) == (parts + [p], []);
      GroupIdeographs(s[1..], parts + [p], t, wide);
      assert IdeographParts(s, t) == [p] + IdeographParts(s[1..], t);
      SeqAssoc(parts, [p], IdeographParts(s[1..], t));
    }
  }

  lemma IdeographTexts(w: string, t: Table)
    ensures Texts(IdeographParts(w, t)) == CharReadings(w, t)
  {
  }

  /** Ideographs that all have readings are spelled as those readings separated by single spaces. */
  lemma SpacedIdeographs(w: string, t: Table, wide: char -> bool)
    requires forall k :: 0 <= k < |w| ==> IsCjk(w[k]) && CharReading(t, w[k]) != "_"
    ensures Spaced(Parts(w, t, wide)) == Join(CharReadings(w, t), " ")
  {
    GroupIdeographs(w, [], t, wide);
    var parts := IdeographParts(w, t);
    assert Parts(w, t, wide) == [] + parts == parts;
    assert forall k :: 0 <= k < |parts| ==> IsReading(parts[k]);
    ReadingsJoinedBySpaces(parts);
    IdeographTexts(w, t);
  }

  /**
   * A sentence of ideographs that all have readings, with no whole-word entry to use instead,
   * comes out as its readings separated by single spaces.
   */
  lemma ComposeIdeographs(traditional: string, t: Table, wide: char -> bool)
    requires var w := CleanWord(traditional, FullWidth);
      w != "" && (|w| == 1 || Lookup(t, CharOnlyKey(w)).None?)
      && forall k :: 0 <= k < |w| ==> IsCjk(w[k]) && CharReading(t, w[k]) != "_"
    ensures var w := CleanWord(traditional, FullWidth);
      Compose(traditional, t, wide) == Join(CharReadings(w, t), " ")
  {
    var w := CleanWord(traditional, FullWidth);
    ComposeSpellsOut(traditional, t, wide);
    SpacedIdeographs(w, t, wide);
  }

  /** `get_hanviet_with_preserved_chars`. */
  method PreservedHanViet(traditional: string, t: Table, wide: char -> bool) returns (r: string)
    ensures r == Compose(traditional, t, wide)
  {
    if traditional == "" {
      return "";
    }
    var w := CleanWord(traditional, FullWidth);
    if w == "" {
      return "";
    }
    var mixed := exists k :: 0 <= k < |w| && PunctOrLatinChar(w[k], wide);
    if !mixed && |w| > 1 {
      var whole := Lookup(t, CharOnlyKey(w));
      if whole.Some? {
        return whole.value;
      }
    }
    var parts := GroupParts(w, t, wide);
    r := JoinParts(parts);
  }

  /** The first loop: characters to parts. */
  method GroupParts(w: string, t: Table, wide: char -> bool) returns (parts: seq<Part>)
    ensures parts == Parts(w, t, wide)
  {
    parts := [];
    var group: string := [];
    var i := 0;
    while i < |w|
      invariant 0 <= i <= |w|
      invariant Group(w[i..], parts, group, t, wide) == Parts(w, t, wide)
    {
      var c := w[i];
      assert w[i..][0] == c && w[i..][1..] == w[i + 1..];
      ghost var next := Step(c, parts, group, t, wide);
      if PunctOrLatinChar(c, wide) {
        if IsAlnum(c, wide) && (c as int) < 128 {
          group := group + [c];
        } else {
          if group != [] {
            parts := parts + [Part(group, true, true, group)];
            group := [];
          }
          parts := parts + [Part([c], true, false, [c])];
        }
      } else {
        if group != [] {
          parts := parts + [Part(group, true, true, group)];
          group := [];
        }
        var key := CharOnlyKey([c]);
        var reading := Lookup(t, key);
        if reading.Some? {
          parts := parts + [Part(reading.value, false, false, [c])];
        } else {
          parts := parts + [Part("_", false, false, [c])];
        }
      }
      assert (parts, group) == next;
      i := i + 1;
    }
    if group != [] {
      parts := parts + [Part(group, true, true, group)];
    }
  }

  /** `"".join(parts + [p])`. */
  lemma JoinUnspacedSnoc(parts: seq<string>, p: string)
    ensures Join(parts + [p], "") == Join(parts, "") + p
  {
    JoinSnoc(parts, p, "");
    if parts == [] {
      assert Join(parts, "") + p == p;
    } else {
      assert Join(parts, "") + "" + p == Join(parts, "") + p;
    }
  }

  /** `Spaced` over one more part. */
  lemma SpacedStep(parts: seq<Part>, i: nat)
    requires i < |parts|
    ensures Spaced(parts[..i + 1]) == Spaced(parts[..i]) + (if i == 0 then "" else Separator(parts[i - 1], parts[i])) + parts[i].text
  {
    var a := parts[..i + 1];
    assert a[..i] == parts[..i];
    if i == 0 {
      assert Spaced(parts[..i]) + "" + parts[i].text == parts[i].text;
    }
  }

  /** The four spacing rules of the second loop. */
  method SeparatorBefore(prev: Part, p: Part) returns (sep: string)
    ensures sep == Separator(prev, p)
  {
    sep := "";
    if p.text != "_" && !p.punctOrLatin && prev.text != "_" && !prev.punctOrLatin {
      sep := " ";
    } else if p.latin && prev.text != "_" && !prev.punctOrLatin {
      sep := " ";
    } else if prev.latin && p.text != "_" && !p.punctOrLatin {
      sep := " ";
    } else if p.latin && prev.punctOrLatin {
      if !Contains(ChinesePunctuation, prev.text) {
        sep := " ";
      }
    }
  }

  /** One iteration of the second loop keeps `"".join(final_parts)` equal to the parts spaced so far. */
  lemma JoinPartsStep(finalParts: seq<string>, parts: seq<Part>, i: nat, sep: string)
    requires i < |parts| && Join(finalParts, "") == Spaced(parts[..i])
    requires sep == if i == 0 then "" else Separator(parts[i - 1], parts[i])
    ensures Join(finalParts + (if sep != "" then [sep] else []) + [parts[i].text], "") == Spaced(parts[..i + 1])
  {
    SpacedStep(parts, i);
    if sep != "" {
      JoinUnspacedSnoc(finalParts, sep);
      JoinUnspacedSnoc(finalParts + [sep], parts[i].text);
    } else {
      assert finalParts + [] == finalParts;
      JoinUnspacedSnoc(finalParts, parts[i].text);
      assert Spaced(parts[..i]) + sep == Spaced(parts[..i]);
    }
  }

  /** The second loop: parts and the separators between them, joined. */
  method JoinParts(parts: seq<Part>) returns (r: string)
    ensures r == Spaced(parts)
  {
    var finalParts: seq<string> := [];
    var i := 0;
    while i < |parts|
      invariant 0 <= i <= |parts|
      invariant Join(finalParts, "") == Spaced(parts[..i])
    {
      var p := parts[i];
      var sep := "";
      if i > 0 {
        sep := SeparatorBefore(parts[i - 1], p);
      }
      JoinPartsStep(finalParts, parts, i, sep);
      ghost var next := finalParts + (if sep != "" then [sep] else []) + [parts[i].text];
      if sep != "" {
        finalParts := finalParts + [sep];
      }
      finalParts := finalParts + [p.text];
      assert finalParts == next;
      i := i + 1;
    }
    assert parts[..i] == parts;
    r := Join(finalParts, "");
  }

  // ---------------------------------------------------------------------------
  // Rows
  // ---------------------------------------------------------------------------

  /** The columns of a row of `vocabCsv/sentences.csv`, "" where absent. */
  datatype SentenceRow = SentenceRow(characters: string, pinyin: string, meaning: string, hskLevel: string, tocflLevel: string)

  /** The fields of `item_data` that come from the row; the others start as "" and are filled by translation. */
  datatype SentenceItem = SentenceItem(index: nat, simplified: string, pinyin: string, english: string, hskLevel: string, tocflLevel: string)

  /** `FILTER_TOCFL_LEVEL = 1`, compared as `str(FILTER_TOCFL_LEVEL)`. */
  const FilterTocflLevel: string := "1"

  function ItemOf(row: SentenceRow, index: nat): SentenceItem {
    SentenceItem(index, Strip(row.characters), Strip(row.pinyin), Strip(row.meaning), Strip(row.hskLevel), Strip(row.tocflLevel))
  }

  predicate AtFilterLevel(row: SentenceRow) {
    Strip(row.tocflLevel) == FilterTocflLevel
  }

  /** The items the reading loop collects from `rows`; `MAX_ROWS = None` in this script, so no row limit applies. */
  function Selected(rows: seq<SentenceRow>): seq<SentenceItem> {
    KeepNumbered(rows, AtFilterLevel, ItemOf)
  }

  /** The reading loop: `total_rows` counts every row, and rows at another TOCFL level are skipped. */
  method SelectLevelOne(rows: seq<SentenceRow>) returns (items: seq<SentenceItem>)
    ensures items == Selected(rows)
  {
    items := [];
    var totalRows := 0;
    var i := 0;
    while i < |rows|
      invariant 0 <= i <= |rows| && totalRows == i
      invariant items == Selected(rows[..i])
    {
      var row := rows[i];
      KeepNumberedStep(rows, i, AtFilterLevel, ItemOf);
      totalRows := totalRows + 1;
      i := i + 1;
      var tocflLevel := Strip(row.tocflLevel);
      if tocflLevel != FilterTocflLevel {
        continue;
      }
      var item := SentenceItem(totalRows, Strip(row.characters), Strip(row.pinyin), Strip(row.meaning), Strip(row.hskLevel), tocflLevel);
      assert item == ItemOf(row, totalRows);
      items := items + [item];
    }
    assert rows[..i] == rows;
  }

  /** Each kept item is the item of a level-"1" row at its own 1-based index. */
  lemma SelectedFromRows(rows: seq<SentenceRow>)
    ensures var items := Selected(rows);
      forall k :: 0 <= k < |items| ==>
        (1 <= items[k].index <= |rows| && AtFilterLevel(rows[items[k].index - 1])
        && items[k] == ItemOf(rows[items[k].index - 1], items[k].index))
  {
    var items := Selected(rows);
    var ps := KeepNumberedPositions(rows, AtFilterLevel, ItemOf);
    forall k | 0 <= k < |items|
      ensures 1 <= items[k].index <= |rows| && AtFilterLevel(rows[items[k].index - 1])
        && items[k] == ItemOf(rows[items[k].index - 1], items[k].index)
    {
      var p := ps[k];
      assert items[k] == ItemOf(rows[p - 1], p);
      assert items[k].index == p;
    }
  }

  /** The indices of the kept items strictly increase. */
  lemma SelectedIncreasing(rows: seq<SentenceRow>)
    ensures var items := Selected(rows);
      forall i, j :: 0 <= i < j < |items| ==> items[i].index < items[j].index
  {
    var items := Selected(rows);
    var ps := KeepNumberedPositions(rows, AtFilterLevel, ItemOf);
    forall k | 0 <= k < |items|
      ensures items[k].index == ps[k]
    {
      var p := ps[k];
      assert items[k] == ItemOf(rows[p - 1], p);
    }
    forall i, j | 0 <= i < j < |items|
      ensures items[i].index < items[j].index
    {
      assert ps[i] < ps[j];
    }
  }

  /** A row at TOCFL level "1" is never dropped. */
  lemma SelectedKeeps(rows: seq<SentenceRow>, i: nat)
    requires i < |rows| && AtFilterLevel(rows[i])
    ensures ItemOf(rows[i], i + 1) in Selected(rows)
  {
    KeepNumberedKeeps(rows, i, AtFilterLevel, ItemOf);
  }

  /** `processed_data.sort(key=lambda x: x["index"])`. */
  function ByIndex(a: SentenceItem, b: SentenceItem): int {
    a.index - b.index
  }

  /** The items leave the batches in reading order, so sorting by index leaves them unchanged. */
  lemma SortByIndexKeepsOrder(rows: seq<SentenceRow>)
    ensures Sorting.Sort(Selected(rows), ByIndex) == Selected(rows)
  {
    var items := Selected(rows);
    SelectedIncreasing(rows);
    assert forall i, j :: 0 <= i < j < |items| ==> ByIndex(items[j], items[i]) >= 0;
    Sorting.SortOfOrdered(items, ByIndex);
  }

  /** The columns of a row of the cmn sentence file. */
  datatype CmnRow = CmnRow(simplified: string, traditional: string, pinyin: string)

  datatype CmnItem = CmnItem(index: nat, simplified: string, traditional: string, pinyin: string, hanviet: string)

  /** `MAX_ROWS = 100` in `process_cmn_sen_csv.py`. */
  const MaxRows: nat := 100

  function CmnItemOf(row: CmnRow, index: nat, t: Table, wide: char -> bool): CmnItem {
    var traditional := Strip(row.traditional);
    CmnItem(index, Strip(row.simplified), traditional, Strip(row.pinyin), Compose(traditional, t, wide))
  }

  /** The reading loop of `process_cmn_sen_csv.py`: at most `MaxRows` rows, numbered from 1, each spelled. */
  method ReadCmnRows(rows: seq<CmnRow>, t: Table, wide: char -> bool) returns (items: seq<CmnItem>)
    ensures |items| == if |rows| < MaxRows then |rows| else MaxRows
    ensures forall k :: 0 <= k < |items| ==> items[k] == CmnItemOf(rows[k], k + 1, t, wide)
  {
    ghost var itemOf := (row: CmnRow, index: nat) => CmnItemOf(row, index, t, wide);
    items := [];
    var rowCount := 0;
    while rowCount < |rows|
      invariant 0 <= rowCount <= |rows| && rowCount <= MaxRows
      invariant |items| == rowCount
      invariant NumberedPrefix(items, rows, itemOf)
    {
      var row := rows[rowCount];
      rowCount := rowCount + 1;
      if rowCount > MaxRows {
        break;
      }
      var traditional := Strip(row.traditional);
      var hanviet := PreservedHanViet(traditional, t, wide);
      var item := CmnItem(rowCount, Strip(row.simplified), traditional, Strip(row.pinyin), hanviet);
      assert item == itemOf(rows[|items|], |items| + 1);
      NumberedSnoc(items, rows, itemOf, item);
      items := items + [item];
    }
  }
}
