/**
 * The sentence level assigner. Each sentence, as UTF-8 bytes, is segmented greedily against the
 * vocabulary of levels 1..L (longest byte span first, then a single character, never
 * backtracking), and gets the least L for which that succeeds, for HSK (1..7) and TOCFL (1..5).
 * Word lists are growable arrays of fixed-width strings; sentence rows are split by a small CSV
 * field scanner and written back with the meaning quoted when it holds a comma.
 */
module Levels {
  import opened Wrappers
  import opened Text

  const MaxWordLength: nat := 100
  const MaxHskLevels: nat := 7
  const MaxTocflLevels: nat := 5
  const InitialCapacity: nat := 10000
  const MaxFields: nat := 5

  const Space: bv8 := 0x20
  const Quote: bv8 := 0x22
  const Comma: bv8 := 0x2C
  const LineFeed: bv8 := 0x0A
  const CarriageReturn: bv8 := 0x0D

  /** The bytes of a NUL-terminated C string, without the terminator. */
  type CString = s: seq<bv8> | forall k :: 0 <= k < |s| ==> s[k] != 0

  /** The byte at `i`, or the terminating NUL when `i` is the end of the string. */
  function Peek(s: CString, i: int): bv8 {
    if 0 <= i < |s| then s[i] else 0
  }

  /** The bytes of `s` from `i` up to `j`, which hold no NUL either. */
  function Slice(s: CString, i: nat, j: nat): CString
    requires i <= j <= |s|
  {
    s[i..j]
  }

  /** What `strncpy(slot, word, MAX_WORD_LENGTH - 1)` with a NUL in the last slot leaves as a string. */
  function Truncated(word: CString): (r: CString)
    ensures |r| == if |word| < MaxWordLength then |word| else MaxWordLength - 1
    ensures r == word[..|r|]
  {
    if |word| < MaxWordLength then word else word[..MaxWordLength - 1]
  }

  // ---------------------------------------------------------------------------
  // Word lists
  // ---------------------------------------------------------------------------

  class WordList {
    var words: array<CString>
    var count: nat

    /** The used slots fit the array, every slot holds at most 99 bytes, and the capacity never reaches 0. */
    ghost predicate Valid()
      reads this, words
    {
      0 < words.Length && count <= words.Length
      && forall i :: 0 <= i < count ==> |words[i]| < MaxWordLength
    }

    function Words(): seq<CString>
      reads this, words
      requires Valid()
    {
      words[..count]
    }

    /** `create_wordlist`. */
    constructor ()
      ensures Valid() && fresh(words) && words.Length == InitialCapacity && Words() == []
    {
      words := new CString[InitialCapacity];
      count := 0;
    }

    /** `add_word`: the capacity doubles when full, then the truncated word goes in the next slot. */
    method AddWord(word: CString)
      requires Valid()
      modifies this, words
      ensures Valid()
      ensures Words() == old(Words()) + [Truncated(word)]
      ensures old(count) < old(words.Length) ==> words == old(words)
      ensures old(count) >= old(words.Length) ==> fresh(words) && words.Length == 2 * old(words.Length)
    {
      if count >= words.Length {
        var bigger := new CString[2 * words.Length];
        var i := 0;
        while i < count
          invariant 0 <= i <= count
          invariant bigger[..i] == words[..i]
          modifies bigger
        {
          bigger[i] := words[i];
          i := i + 1;
        }
        words := bigger;
      }
      words[count] := Truncated(word);
      count := count + 1;
    }

    /** `word_exists` on this list. */
    method Contains(query: CString) returns (found: bool)
      requires Valid()
      ensures found <==> query in Words()
    {
      found := WordExists(words[..count], query);
    }
  }

  /** The `word_exists` loop: some stored word equals the query byte for byte. */
  method WordExists(words: seq<CString>, query: CString) returns (found: bool)
    ensures found <==> query in words
  {
    var i := 0;
    while i < |words|
      invariant 0 <= i <= |words|
      invariant query !in words[..i]
    {
      if words[i] == query {
        return true;
      }
      i := i + 1;
    }
    assert words[..i] == words;
    return false;
  }

  /** The words of `lines` after the header, as `load_csv` keeps them: the part before the first comma, of lines that have one. */
  function ListedWords(lines: seq<CString>): (r: seq<CString>)
    ensures |r| <= |lines|
    ensures forall k :: 0 <= k < |r| ==> |r[k]| < MaxWordLength && Comma !in r[k]
  {
    if lines == [] then []
    else
      var last := lines[|lines| - 1];
      ListedWords(lines[..|lines| - 1]) + (if Comma in last then [Truncated(CutAt(last, Comma))] else [])
  }

  /** `load_csv` once the file is read: the header line is skipped, every other line with a comma adds a word. */
  method LoadLines(list: WordList, lines: seq<CString>)
    requires list.Valid()
    modifies list, list.words
    ensures list.Valid()
    ensures list.Words() == old(list.Words()) + ListedWords(if lines == [] then [] else lines[1..])
  {
    if lines == [] {
      return;
    }
    var i := 1;
    while i < |lines|
      invariant 1 <= i <= |lines|
      invariant list.Valid()
      invariant list.words == old(list.words) || fresh(list.words)
      invariant list.Words() == old(list.Words()) + ListedWords(lines[1..i])
    {
      ghost var next := lines[1..i + 1];
      assert |next| == i && next[i - 1] == lines[i];
      assert next[..i - 1] == lines[1..i];
      if Comma in lines[i] {
        list.AddWord(CutAt(lines[i], Comma));
      }
      i := i + 1;
    }
    assert lines[1..i] == lines[1..];
  }

  /** `s` up to the first `c`, as `*strchr(s, c) = '\0'` leaves it. */
  function CutAt(s: CString, c: bv8): (r: CString)
    ensures |r| <= |s| && r == s[..|r|] && c !in r
    ensures |r| < |s| ==> s[|r|] == c
  {
    if s == [] then []
    else if s[0] == c then []
    else
      assert s == [s[0]] + s[1..];
      [s[0]] + CutAt(s[1..], c)
  }

  lemma {:induction false} CutAtNoOccurrence(s: CString, c: bv8)
    requires c !in s
    ensures CutAt(s, c) == s
  {
    if s != [] {
      CutAtNoOccurrence(s[1..], c);
    }
  }

  lemma CutAtFirst(s: CString, rest: CString, c: bv8)
    requires c !in s && c != 0
    ensures CutAt(s + [c] + rest, c) == s
  {
    var t := s + [c] + rest;
    assert t[|s|] == c && t[..|s|] == s;
  }

  // ---------------------------------------------------------------------------
  // UTF-8 classification
  // ---------------------------------------------------------------------------

  /** `get_utf8_char_len`: the sequence length a lead byte announces; 1 for continuation and invalid bytes. */
  function Utf8Length(b: bv8): (n: nat)
    ensures 1 <= n <= 4
  {
    if b & 0x80 == 0x00 then 1
    else if b & 0xE0 == 0xC0 then 2
    else if b & 0xF0 == 0xE0 then 3
    else if b & 0xF8 == 0xF0 then 4
    else 1
  }

  /** The masks select these byte ranges. */
  lemma Utf8LengthRanges(b: bv8)
    ensures b < 0x80 ==> Utf8Length(b) == 1
    ensures 0x80 <= b < 0xC0 ==> Utf8Length(b) == 1
    ensures 0xC0 <= b < 0xE0 ==> Utf8Length(b) == 2
    ensures 0xE0 <= b < 0xF0 ==> Utf8Length(b) == 3
    ensures 0xF0 <= b < 0xF8 ==> Utf8Length(b) == 4
    ensures 0xF8 <= b ==> Utf8Length(b) == 1
  {
  }

  /** `is_chinese_char`: a three-byte lead byte between 0xE4 and 0xE9 (code points U+4000 to U+9FFF). */
  predicate IsChineseLead(b: bv8) {
    Utf8Length(b) == 3 && 0xE4 <= b <= 0xE9
  }

  lemma ChineseLeadRange(b: bv8)
    ensures IsChineseLead(b) <==> 0xE4 <= b <= 0xE9
  {
    Utf8LengthRanges(b);
  }

  // ---------------------------------------------------------------------------
  // Segmentation
  // ---------------------------------------------------------------------------

  /** `w` is a word of one of the first `maxLevel` lists. */
  predicate InLevels(vocab: seq<seq<CString>>, maxLevel: nat, w: CString) {
    exists l :: 0 <= l < maxLevel && l < |vocab| && w in vocab[l]
  }

  function Min(a: int, b: int): int {
    if a <= b then a else b
  }

  /** The `len` bytes of `s` from `pos` form a word of the first `maxLevel` lists. */
  predicate KnownSpan(s: CString, pos: int, len: int, vocab: seq<seq<CString>>, maxLevel: nat) {
    0 <= pos && 0 <= len && pos + len <= |s| && InLevels(vocab, maxLevel, s[pos..pos + len])
  }

  /** The longest span `s[pos..pos + L]` with `3 <= L <= checkLen` found in the vocabulary, or 0 when none is. */
  function LongestMatch(s: CString, pos: nat, checkLen: int, vocab: seq<seq<CString>>, maxLevel: nat): (r: nat)
    requires pos + checkLen <= |s|
    ensures r == 0 || (3 <= r <= checkLen && KnownSpan(s, pos, r, vocab, maxLevel))
    ensures forall len :: 3 <= len <= checkLen && r < len ==> !KnownSpan(s, pos, len, vocab, maxLevel)
    decreases checkLen
  {
    if checkLen < 3 then 0
    else if InLevels(vocab, maxLevel, s[pos..pos + checkLen]) then checkLen
    else LongestMatch(s, pos, checkLen - 1, vocab, maxLevel)
  }

  /** How far one turn of the segmentation loop moves from `pos`, or `None` where it gives up. */
  function Advance(s: CString, pos: nat, vocab: seq<seq<CString>>, maxLevel: nat): (r: Option<nat>)
    requires pos < |s|
    ensures r.Some? ==> r.value >= 1
  {
    var b := s[pos];
    if !IsChineseLead(b) then Some(Utf8Length(b))
    else
      var m := LongestMatch(s, pos, Min(|s| - pos, MaxWordLength - 1), vocab, maxLevel);
      if m > 0 then Some(m)
      else if InLevels(vocab, maxLevel, s[pos..Min(pos + Utf8Length(b), |s|)]) then Some(Utf8Length(b))
      else None
  }

  function SegmentsFrom(s: CString, pos: nat, vocab: seq<seq<CString>>, maxLevel: nat): bool
    decreases |s| - pos
  {
    if pos >= |s| then true
    else match Advance(s, pos, vocab, maxLevel)
      case None => false
      case Some(n) => SegmentsFrom(s, pos + n, vocab, maxLevel)
  }

  /** Whether `can_segment_with_level` succeeds on `s` with the first `maxLevel` lists. */
  function Segments(s: CString, vocab: seq<seq<CString>>, maxLevel: nat): bool {
    |s| == 0 || SegmentsFrom(s, 0, vocab, maxLevel)
  }

  /** At a Chinese position the chosen span is a known word, and no longer span of at most 99 bytes is. */
  lemma GreedyChoice(s: CString, pos: nat, vocab: seq<seq<CString>>, maxLevel: nat)
    requires pos < |s| && IsChineseLead(s[pos])
    requires Advance(s, pos, vocab, maxLevel).Some?
    ensures var n := Advance(s, pos, vocab, maxLevel).value;
      InLevels(vocab, maxLevel, s[pos..Min(pos + n, |s|)])
      && forall len :: n < len <= Min(|s| - pos, MaxWordLength - 1) ==> !KnownSpan(s, pos, len, vocab, maxLevel)
  {
  }

  /** Bytes that start no Chinese character are stepped over, so a sentence without any segments at every level. */
  lemma {:induction false} NoChineseSegments(s: CString, pos: nat, vocab: seq<seq<CString>>, maxLevel: nat)
    requires forall k :: pos <= k < |s| ==> !IsChineseLead(s[k])
    ensures SegmentsFrom(s, pos, vocab, maxLevel)
    decreases |s| - pos
  {
    if pos < |s| {
      NoChineseSegments(s, pos + Utf8Length(s[pos]), vocab, maxLevel);
    }
  }

  /** A Chinese character that no level knows, alone or as the start of a longer word, makes segmentation fail. */
  lemma {:induction false} UnknownCharacterFails(s: CString, pos: nat, vocab: seq<seq<CString>>, maxLevel: nat)
    requires pos < |s| && IsChineseLead(s[pos])
    requires forall len :: 1 <= len <= Min(|s| - pos, MaxWordLength - 1) ==> !KnownSpan(s, pos, len, vocab, maxLevel)
    ensures !SegmentsFrom(s, pos, vocab, maxLevel)
  {
    var m := LongestMatch(s, pos, Min(|s| - pos, MaxWordLength - 1), vocab, maxLevel);
    assert m == 0;
    var e := Min(pos + Utf8Length(s[pos]), |s|);
    assert e - pos <= Min(|s| - pos, MaxWordLength - 1);
    assert !KnownSpan(s, pos, e - pos, vocab, maxLevel);
  }

  /** The inner `for (level = 0; level < max_level; level++) if (word_exists(...)) break;` loop. */
  method ContainedInLevels(vocab: seq<seq<CString>>, maxLevel: nat, w: CString) returns (found: bool)
    requires maxLevel <= |vocab|
    ensures found <==> InLevels(vocab, maxLevel, w)
  {
    var level := 0;
    while level < maxLevel
      invariant 0 <= level <= maxLevel
      invariant !InLevels(vocab, level, w)
    {
      found := WordExists(vocab[level], w);
      if found {
        return;
      }
      level := level + 1;
    }
    found := false;
  }

  /** The `for (check_len = max_check; check_len >= 3; check_len--)` loop: the longest known span, or 0. */
  method LongestKnownSpan(sentence: CString, vocab: seq<seq<CString>>, maxLevel: nat, pos: nat, maxCheck: int)
    returns (best: nat)
    requires pos + maxCheck <= |sentence| && maxLevel <= |vocab|
    ensures best == LongestMatch(sentence, pos, maxCheck, vocab, maxLevel)
  {
    var checkLen := maxCheck;
    while checkLen >= 3
      invariant checkLen <= maxCheck
      invariant LongestMatch(sentence, pos, maxCheck, vocab, maxLevel) == LongestMatch(sentence, pos, checkLen, vocab, maxLevel)
    {
      var found := ContainedInLevels(vocab, maxLevel, sentence[pos..pos + checkLen]);
      if found {
        return checkLen;
      }
      checkLen := checkLen - 1;
    }
    return 0;
  }

  /** One turn of the segmentation loop: a byte starting no Chinese character is stepped over; at a Chinese one the longest span, else the single character, else nothing. */
  method StepAt(sentence: CString, vocab: seq<seq<CString>>, maxLevel: nat, pos: nat) returns (step: Option<nat>)
    requires pos < |sentence| && maxLevel <= |vocab|
    ensures step == Advance(sentence, pos, vocab, maxLevel)
  {
    var b := sentence[pos];
    if !IsChineseLead(b) {
      return Some(Utf8Length(b));
    }
    var len := |sentence|;
    var maxCheck := if len - pos < MaxWordLength then len - pos else MaxWordLength - 1;
    assert maxCheck == Min(len - pos, MaxWordLength - 1);
    var best := LongestKnownSpan(sentence, vocab, maxLevel, pos, maxCheck);
    if best > 0 {
      return Some(best);
    }
    var charLen := Utf8Length(sentence[pos]);
    var found := ContainedInLevels(vocab, maxLevel, sentence[pos..Min(pos + charLen, len)]);
    if found {
      return Some(charLen);
    }
    return None;
  }

  /** `can_segment_with_level`. */
  method CanSegmentWithLevel(sentence: CString, vocab: seq<seq<CString>>, maxLevel: nat) returns (ok: bool)
    requires maxLevel <= |vocab|
    ensures ok == Segments(sentence, vocab, maxLevel)
  {
    var len := |sentence|;
    if len == 0 {
      return true;
    }
    var pos := 0;
    while pos < len
      invariant 0 <= pos
      invariant Segments(sentence, vocab, maxLevel) == SegmentsFrom(sentence, pos, vocab, maxLevel)
      decreases len - pos
    {
      var step := StepAt(sentence, vocab, maxLevel, pos);
      SegmentsStep(sentence, pos, vocab, maxLevel, step);
      if step.None? {
        return false;
      }
      pos := pos + step.value;
    }
    return true;
  }

  lemma SegmentsStep(s: CString, pos: nat, vocab: seq<seq<CString>>, maxLevel: nat, step: Option<nat>)
    requires pos < |s| && Advance(s, pos, vocab, maxLevel) == step
    ensures step.None? ==> !SegmentsFrom(s, pos, vocab, maxLevel)
    ensures step.Some? ==> SegmentsFrom(s, pos, vocab, maxLevel) == SegmentsFrom(s, pos + step.value, vocab, maxLevel)
  {
  }

  /** The least level in `from..levels` at which the sentence segments, or 0 when there is none. */
  function LowestLevelFrom(s: CString, vocab: seq<seq<CString>>, from: nat, levels: nat): (r: nat)
    requires from >= 1
    ensures r == 0 || (from <= r <= levels && Segments(s, vocab, r))
    ensures forall l :: from <= l <= levels && (r == 0 || l < r) ==> !Segments(s, vocab, l)
    decreases levels + 1 - from
  {
    if from > levels then 0
    else if Segments(s, vocab, from) then from
    else LowestLevelFrom(s, vocab, from + 1, levels)
  }

  function LowestLevel(s: CString, vocab: seq<seq<CString>>, levels: nat): (r: nat)
    ensures r <= levels
    ensures r > 0 ==> Segments(s, vocab, r)
    ensures forall l :: 1 <= l <= levels && (r == 0 || l < r) ==> !Segments(s, vocab, l)
  {
    LowestLevelFrom(s, vocab, 1, levels)
  }

  /** `find_hsk_level` and `find_tocfl_level`, which differ only in the number of levels. */
  method FindLevel(sentence: CString, vocab: seq<seq<CString>>, levels: nat) returns (level: nat)
    requires levels <= |vocab|
    ensures level == LowestLevel(sentence, vocab, levels)
  {
    var l := 1;
    while l <= levels
      invariant 1 <= l <= levels + 1
      invariant LowestLevelFrom(sentence, vocab, l, levels) == LowestLevel(sentence, vocab, levels)
    {
      var ok := CanSegmentWithLevel(sentence, vocab, l);
      if ok {
        return l;
      }
      l := l + 1;
    }
    return 0;
  }

  /** A sentence with no Chinese character gets level 1, whatever the vocabulary. */
  lemma NoChineseIsLevelOne(s: CString, vocab: seq<seq<CString>>, levels: nat)
    requires levels >= 1
    requires forall k :: 0 <= k < |s| ==> !IsChineseLead(s[k])
    ensures LowestLevel(s, vocab, levels) == 1
  {
    NoChineseSegments(s, 0, vocab, 1);
  }

  // ---------------------------------------------------------------------------
  // CSV rows
  // ---------------------------------------------------------------------------

  /** The line without its line feed and carriage return. */
  function StripLineEnd(line: CString): CString {
    CutAt(CutAt(line, LineFeed), CarriageReturn)
  }

  // The scanner of `main` walks a position over the line. Its specification below is stated on
  // the rest of the line from that position: `s` is what the scan still has in front of it.

  function SkipSpaces(s: CString, p: nat): (r: nat)
    requires p <= |s|
    ensures p <= r <= |s| && (r < |s| ==> s[r] != Space)
    decreases |s| - p
  {
    if p < |s| && s[p] == Space then SkipSpaces(s, p + 1) else p
  }

  function NextComma(s: CString, p: nat): (r: nat)
    requires p <= |s|
    ensures p <= r <= |s| && (r < |s| ==> s[r] == Comma)
    decreases |s| - p
  {
    if p < |s| && s[p] != Comma then NextComma(s, p + 1) else p
  }

  /** The end of a quoted field opened before `p`: the first quote not followed by a quote; a doubled quote is stepped over. */
  function QuotedEnd(s: CString, p: nat): (r: nat)
    requires p <= |s|
    ensures p <= r <= |s|
    ensures r < |s| ==> s[r] == Quote && Peek(s, r + 1) != Quote
    decreases |s| - p
  {
    if p == |s| then p
    else if s[p] == Quote && Peek(s, p + 1) != Quote then p
    else if s[p] == Quote then QuotedEnd(s, p + 2)
    else QuotedEnd(s, p + 1)
  }

  /** One turn of the field scanner on the rest `s` of the line: the field, and how many bytes the scan moves on. */
  function NextField(s: CString): (r: (CString, nat))
    requires s != []
    ensures 0 < r.1 <= |s|
  {
    var p := SkipSpaces(s, 0);
    if p < |s| && s[p] == Quote then
      var e := QuotedEnd(s, p + 1);
      var next := if e < |s| then (if Peek(s, e + 1) == Comma then e + 2 else e + 1) else e;
      (Slice(s, p + 1, e), next)
    else
      var e := NextComma(s, p);
      (Slice(s, p, e), if e < |s| then e + 1 else e)
  }

  /** The fields the scanner reads from the rest `s` of the line when `room` more fit. */
  function FieldsOf(s: CString, room: nat): (r: seq<CString>)
    ensures |r| <= room
    ensures s != [] && room > 0 ==> r != []
    decreases |s|
  {
    if s == [] || room == 0 then []
    else
      var next := NextField(s);
      [next.0] + FieldsOf(s[next.1..], room - 1)
  }

  /** The fields the scanner splits a line into: at most five, and none only for an empty line. */
  function Fields(line: CString): (r: seq<CString>)
    ensures |r| <= MaxFields
    ensures line != [] <==> r != []
  {
    FieldsOf(line, MaxFields)
  }

  lemma ContainsInSuffix(s: CString, n: nat, f: CString)
    requires n <= |s| && Contains(s[n..], f)
    ensures Contains(s, f)
  {
    var i :| 0 <= i <= |s[n..]| && OccursAt(s[n..], f, i);
    assert s[n + i..n + i + |f|] == s[n..][i..i + |f|];
    assert OccursAt(s, f, n + i);
  }

  /** Each field is a piece of the line: quotes are dropped from its ends but nothing inside is unescaped. */
  lemma NextFieldIsPiece(s: CString)
    requires s != []
    ensures Contains(s, NextField(s).0)
  {
    var p := SkipSpaces(s, 0);
    if p < |s| && s[p] == Quote {
      assert OccursAt(s, NextField(s).0, p + 1);
    } else {
      assert OccursAt(s, NextField(s).0, p);
    }
  }

  lemma {:induction false} FieldsArePieces(s: CString, room: nat)
    ensures forall k :: 0 <= k < |FieldsOf(s, room)| ==> Contains(s, FieldsOf(s, room)[k])
    decreases |s|
  {
    if s != [] && room > 0 {
      var next := NextField(s);
      NextFieldIsPiece(s);
      FieldsArePieces(s[next.1..], room - 1);
      forall k | 1 <= k < |FieldsOf(s, room)|
        ensures Contains(s, FieldsOf(s, room)[k])
      {
        ContainsInSuffix(s, next.1, FieldsOf(s, room)[k]);
      }
    }
  }

  /** The `while (*ptr == ' ') ptr++` loop. */
  method SkipSpacesLoop(s: CString, start: nat) returns (ptr: nat)
    requires start <= |s|
    ensures ptr == SkipSpaces(s, start)
  {
    ptr := start;
    while ptr < |s| && s[ptr] == Space
      invariant start <= ptr <= |s|
      invariant SkipSpaces(s, ptr) == SkipSpaces(s, start)
    {
      ptr := ptr + 1;
    }
  }

  /** The loop that looks for the closing quote, stepping over doubled quotes. */
  method QuotedEndLoop(s: CString, start: nat) returns (ptr: nat)
    requires start <= |s|
    ensures ptr == QuotedEnd(s, start)
  {
    ptr := start;
    while ptr < |s| && !(s[ptr] == Quote && Peek(s, ptr + 1) != Quote)
      invariant start <= ptr <= |s|
      invariant QuotedEnd(s, ptr) == QuotedEnd(s, start)
    {
      if s[ptr] == Quote && Peek(s, ptr + 1) == Quote {
        ptr := ptr + 2;
      } else {
        ptr := ptr + 1;
      }
    }
  }

  /** The loop that looks for the comma ending an unquoted field. */
  method NextCommaLoop(s: CString, start: nat) returns (ptr: nat)
    requires start <= |s|
    ensures ptr == NextComma(s, start)
  {
    ptr := start;
    while ptr < |s| && s[ptr] != Comma
      invariant start <= ptr <= |s|
      invariant NextComma(s, ptr) == NextComma(s, start)
    {
      ptr := ptr + 1;
    }
  }

  /** One turn of the scanner loop on the rest `s` of the line: skip spaces, then read a quoted or an unquoted field. */
  method ScanField(s: CString) returns (field: CString, used: nat)
    requires s != []
    ensures (field, used) == NextField(s)
  {
    var ptr := SkipSpacesLoop(s, 0);
    if ptr < |s| && s[ptr] == Quote {
      var fieldEnd := QuotedEndLoop(s, ptr + 1);
      field := Slice(s, ptr + 1, fieldEnd);
      ptr := fieldEnd;
      if ptr < |s| && s[ptr] == Quote {
        ptr := ptr + 1;
        if ptr < |s| && s[ptr] == Comma {
          ptr := ptr + 1;
        }
      }
    } else {
      var fieldEnd := NextCommaLoop(s, ptr);
      field := Slice(s, ptr, fieldEnd);
      ptr := fieldEnd;
      if ptr < |s| {
        ptr := ptr + 1;
      }
    }
    used := ptr;
  }

  /** The scanner of the sentence loop, walking a position over the line. */
  method SplitFields(line: CString) returns (fields: seq<CString>)
    ensures fields == Fields(line)
  {
    fields := [];
    var ptr := 0;
    assert line[ptr..] == line;
    while ptr < |line| && |fields| < MaxFields
      invariant 0 <= ptr <= |line| && |fields| <= MaxFields
      invariant Scanned(line, ptr, fields)
      decreases |line| - ptr
    {
      var field, used := ScanField(line[ptr..]);
      ghost var before, at := fields, ptr;
      fields, ptr := fields + [field], ptr + used;
      ScannedStep(line, at, before, field, used, ptr, fields);
    }
    ScannedDone(line, ptr, fields);
  }

  /** The fields read so far, followed by those the rest of the line still gives, are the fields of the line. */
  predicate Scanned(line: CString, ptr: nat, fields: seq<CString>)
    requires ptr <= |line| && |fields| <= MaxFields
  {
    fields + FieldsOf(line[ptr..], MaxFields - |fields|) == Fields(line)
  }

  /** One turn of the scanner loop keeps `Scanned`. */
  lemma ScannedStep(line: CString, ptr: nat, fields: seq<CString>, field: CString, used: nat, ptr': nat, fields': seq<CString>)
    requires ptr < |line| && |fields| < MaxFields && Scanned(line, ptr, fields)
    requires NextField(line[ptr..]) == (field, used)
    requires ptr' == ptr + used && fields' == fields + [field]
    ensures ptr' <= |line| && |fields'| <= MaxFields && Scanned(line, ptr', fields')
  {
    var room := MaxFields - |fields|;
    FieldsOfStep(line, ptr, room, field, used, ptr');
    assert MaxFields - |fields'| == room - 1;
    PushStep(fields, field, FieldsOf(line[ptr'..], room - 1), FieldsOf(line[ptr..], room), Fields(line));
  }

  /** Moving the first of the remaining items onto the done ones keeps the whole; stated over any `T`. */
  lemma PushStep<T>(done: seq<T>, x: T, later: seq<T>, rest: seq<T>, whole: seq<T>)
    requires done + rest == whole && rest == [x] + later
    ensures (done + [x]) + later == whole
  {
  }

  lemma FieldsOfStep(line: CString, ptr: nat, room: nat, field: CString, used: nat, next: nat)
    requires ptr < |line| && room > 0 && NextField(line[ptr..]) == (field, used) && next == ptr + used
    ensures next <= |line|
    ensures FieldsOf(line[ptr..], room) == [field] + FieldsOf(line[next..], room - 1)
  {
    assert line[ptr..][used..] == line[next..];
  }

  /** When the line is used up or five fields are read, the fields read are all there are. */
  lemma ScannedDone(line: CString, ptr: nat, fields: seq<CString>)
    requires ptr <= |line| && |fields| <= MaxFields && Scanned(line, ptr, fields)
    requires ptr == |line| || |fields| == MaxFields
    ensures fields == Fields(line)
  {
    assert FieldsOf(line[ptr..], MaxFields - |fields|) == [];
  }

  /** The ASCII digit for `n`, as `%d` prints a one-digit level. */
  function DigitByte(n: nat): (r: bv8)
    requires n <= 9
    ensures 0x30 <= r <= 0x39
  {
    [0x30, 0x31, 0x32, 0x33, 0x34, 0x35, 0x36, 0x37, 0x38, 0x39][n]
  }

  /** The meaning as written out: quoted exactly when it holds a comma. */
  function QuoteIfComma(meaning: CString): (r: CString)
    ensures Comma in meaning ==> r == [Quote] + meaning + [Quote]
    ensures Comma !in meaning ==> r == meaning
  {
    if Comma in meaning then [Quote] + meaning + [Quote] else meaning
  }

  /** One output line without its line feed: sentence, pinyin, meaning and the two levels. */
  function OutputLine(sentence: CString, pinyin: CString, meaning: CString, hsk: nat, tocfl: nat): CString
    requires hsk <= MaxHskLevels && tocfl <= MaxTocflLevels
  {
    sentence + [Comma] + (pinyin + [Comma] + (QuoteIfComma(meaning) + [Comma]
      + [DigitByte(hsk), Comma, DigitByte(tocfl)]))
  }

  /** The `fprintf` of one sentence row: the line and its line feed. */
  function OutputRow(sentence: CString, pinyin: CString, meaning: CString, hsk: nat, tocfl: nat): CString
    requires hsk <= MaxHskLevels && tocfl <= MaxTocflLevels
  {
    OutputLine(sentence, pinyin, meaning, hsk, tocfl) + [LineFeed]
  }

  /** A field the scanner reads back as it is without quotes. */
  predicate PlainField(x: CString) {
    Comma !in x && Quote !in x && LineFeed !in x && CarriageReturn !in x && (x == [] || x[0] != Space)
  }

  lemma {:induction false} NextCommaAt(s: CString, p: nat, e: nat)
    requires p <= e <= |s|
    requires forall k :: p <= k < e ==> s[k] != Comma
    requires e < |s| ==> s[e] == Comma
    ensures NextComma(s, p) == e
    decreases e - p
  {
    if p < e {
      NextCommaAt(s, p + 1, e);
    }
  }

  lemma {:induction false} QuotedEndAt(s: CString, p: nat, e: nat)
    requires p <= e < |s|
    requires forall k :: p <= k < e ==> s[k] != Quote
    requires s[e] == Quote && Peek(s, e + 1) != Quote
    ensures QuotedEnd(s, p) == e
    decreases e - p
  {
    if p < e {
      QuotedEndAt(s, p + 1, e);
    }
  }

  /** A plain field followed by a comma is read as it is, and the scan moves past the comma. */
  lemma UnquotedBeforeComma(x: CString, rest: CString)
    requires PlainField(x)
    ensures NextField(x + [Comma] + rest) == (x, |x| + 1)
  {
    var s := x + [Comma] + rest;
    assert s[0] == if x == [] then Comma else x[0];
    assert SkipSpaces(s, 0) == 0;
    forall k | 0 <= k < |x|
      ensures s[k] != Comma
    {
      assert s[k] == x[k];
    }
    NextCommaAt(s, 0, |x|);
    assert s[..|x|] == x;
  }

  /** A non-empty plain field that is all the rest of the line is read as it is. */
  lemma UnquotedAtEnd(x: CString)
    requires PlainField(x) && x != []
    ensures NextField(x) == (x, |x|)
  {
    assert SkipSpaces(x, 0) == 0;
    NextCommaAt(x, 0, |x|);
    assert x[0..|x|] == x;
  }

  /** A quoted meaning without quotes, followed by a comma, is read without its quotes. */
  lemma QuotedBeforeComma(m: CString, rest: CString)
    requires Quote !in m
    ensures NextField([Quote] + m + [Quote] + [Comma] + rest) == (m, |m| + 3)
  {
    var s := [Quote] + m + [Quote] + [Comma] + rest;
    assert s[0] == Quote;
    assert SkipSpaces(s, 0) == 0;
    forall k | 1 <= k < 1 + |m|
      ensures s[k] != Quote
    {
      assert s[k] == m[k - 1];
    }
    assert s[1 + |m|] == Quote && s[2 + |m|] == Comma;
    QuotedEndAt(s, 1, 1 + |m|);
    assert s[1..1 + |m|] == m;
  }

  /** The meaning as written, quoted or not, is read back as it was. */
  lemma ReadMeaning(meaning: CString, rest: CString)
    requires Quote !in meaning && (Comma !in meaning ==> PlainField(meaning))
    ensures NextField(QuoteIfComma(meaning) + [Comma] + rest) == (meaning, |QuoteIfComma(meaning)| + 1)
  {
    var q := QuoteIfComma(meaning);
    if Comma in meaning {
      assert q == [Quote] + meaning + [Quote];
      QuotedBeforeComma(meaning, rest);
    } else {
      assert q == meaning;
      UnquotedBeforeComma(meaning, rest);
    }
  }

  /** A field written as the meaning is written, then a comma: the scanner reads the field and goes on with the rest. */
  lemma ReadFirstField(x: CString, rest: CString, room: nat)
    requires Quote !in x && (Comma !in x ==> PlainField(x))
    ensures FieldsOf(QuoteIfComma(x) + [Comma] + rest, room + 1) == [x] + FieldsOf(rest, room)
  {
    var q := QuoteIfComma(x);
    var s := q + [Comma] + rest;
    ReadMeaning(x, rest);
    assert s[|q| + 1..] == rest;
  }

  /** The two level digits that end an output line are read back as two one-byte fields. */
  lemma ReadLevels(d1: bv8, d2: bv8)
    requires 0x30 <= d1 <= 0x39 && 0x30 <= d2 <= 0x39
    ensures FieldsOf([d1, Comma, d2], 2) == [[d1], [d2]]
  {
    var h: CString, t: CString := [d1], [d2];
    assert Comma !in h && PlainField(h);
    assert QuoteIfComma(h) == h;
    var s: CString := [d1, Comma, d2];
    assert s == QuoteIfComma(h) + [Comma] + t;
    ReadFirstField(h, t, 1);
    UnquotedAtEnd(t);
    assert FieldsOf(t, 1) == [t] + FieldsOf(t[1..], 0) == [t];
  }

  /** The meaning and the two levels, read back. */
  lemma ReadLineTail(meaning: CString, d1: bv8, d2: bv8)
    requires 0x30 <= d1 <= 0x39 && 0x30 <= d2 <= 0x39
    requires Quote !in meaning && (Comma !in meaning ==> PlainField(meaning))
    ensures FieldsOf(QuoteIfComma(meaning) + [Comma] + [d1, Comma, d2], 3) == [meaning, [d1], [d2]]
  {
    ReadFirstField(meaning, [d1, Comma, d2], 2);
    ReadLevels(d1, d2);
    assert [meaning] + [[d1], [d2]] == [meaning, [d1], [d2]];
  }

  /** The pinyin, the meaning and the two levels, read back. */
  lemma ReadLineMiddle(pinyin: CString, meaning: CString, d1: bv8, d2: bv8)
    requires 0x30 <= d1 <= 0x39 && 0x30 <= d2 <= 0x39
    requires PlainField(pinyin) && Quote !in meaning && (Comma !in meaning ==> PlainField(meaning))
    ensures FieldsOf(pinyin + [Comma] + (QuoteIfComma(meaning) + [Comma] + [d1, Comma, d2]), 4)
            == [pinyin, meaning, [d1], [d2]]
  {
    var rest: CString := QuoteIfComma(meaning) + [Comma] + [d1, Comma, d2];
    assert QuoteIfComma(pinyin) == pinyin;
    ReadFirstField(pinyin, rest, 3);
    ReadLineTail(meaning, d1, d2);
    Cons4(pinyin, meaning, [d1], [d2]);
  }

  /** The five fields of an output line, read back. */
  lemma ReadOutputLine(sentence: CString, pinyin: CString, meaning: CString, hsk: nat, tocfl: nat)
    requires hsk <= MaxHskLevels && tocfl <= MaxTocflLevels
    requires PlainField(sentence) && PlainField(pinyin)
    requires Quote !in meaning && (Comma !in meaning ==> PlainField(meaning))
    ensures Fields(OutputLine(sentence, pinyin, meaning, hsk, tocfl))
            == [sentence, pinyin, meaning, [DigitByte(hsk)], [DigitByte(tocfl)]]
  {
    var d1, d2 := DigitByte(hsk), DigitByte(tocfl);
    var rest: CString := pinyin + [Comma] + (QuoteIfComma(meaning) + [Comma] + [d1, Comma, d2]);
    assert QuoteIfComma(sentence) == sentence;
    assert OutputLine(sentence, pinyin, meaning, hsk, tocfl) == QuoteIfComma(sentence) + [Comma] + rest;
    ReadFirstField(sentence, rest, 4);
    ReadLineMiddle(pinyin, meaning, d1, d2);
    Cons5(sentence, pinyin, meaning, [d1], [d2]);
  }

  /** Prepending to a display of fields; stated over any `T`, where the solver settles it at once. */
  lemma Cons4<T>(a: T, b: T, c: T, d: T)
    ensures [a] + [b, c, d] == [a, b, c, d]
  {
  }

  /** As `Cons4`, one field longer. */
  lemma Cons5<T>(a: T, b: T, c: T, d: T, e: T)
    ensures [a] + [b, c, d, e] == [a, b, c, d, e]
  {
  }

  /** Stripping a line that ends in its only line feed, and holds no carriage return, removes just the line feed. */
  lemma StripLine(line: CString)
    requires LineFeed !in line && CarriageReturn !in line
    ensures StripLineEnd(line + [LineFeed]) == line
  {
    CutAtFirst(line, [], LineFeed);
    assert line + [LineFeed] == line + [LineFeed] + [];
    CutAtNoOccurrence(line, CarriageReturn);
  }

  /** The output row without its line feed is the output line. */
  lemma StripOutputRow(sentence: CString, pinyin: CString, meaning: CString, hsk: nat, tocfl: nat)
    requires hsk <= MaxHskLevels && tocfl <= MaxTocflLevels
    requires LineFeed !in sentence && CarriageReturn !in sentence && LineFeed !in pinyin && CarriageReturn !in pinyin
    requires LineFeed !in meaning && CarriageReturn !in meaning
    ensures StripLineEnd(OutputRow(sentence, pinyin, meaning, hsk, tocfl)) == OutputLine(sentence, pinyin, meaning, hsk, tocfl)
  {
    StripLine(OutputLine(sentence, pinyin, meaning, hsk, tocfl));
  }

  /** Reading an output row back gives the five values that were written. */
  lemma OutputRowRoundTrip(sentence: CString, pinyin: CString, meaning: CString, hsk: nat, tocfl: nat)
    requires hsk <= MaxHskLevels && tocfl <= MaxTocflLevels
    requires PlainField(sentence) && PlainField(pinyin)
    requires Quote !in meaning && LineFeed !in meaning && CarriageReturn !in meaning
    requires Comma !in meaning ==> PlainField(meaning)
    ensures Fields(StripLineEnd(OutputRow(sentence, pinyin, meaning, hsk, tocfl)))
            == [sentence, pinyin, meaning, [DigitByte(hsk)], [DigitByte(tocfl)]]
  {
    StripOutputRow(sentence, pinyin, meaning, hsk, tocfl);
    ReadOutputLine(sentence, pinyin, meaning, hsk, tocfl);
  }

  /** One row of the sentence loop: `None` for a row with fewer than three fields, else the line written out. */
  method ProcessRow(line: CString, hskVocab: seq<seq<CString>>, tocflVocab: seq<seq<CString>>) returns (out: Option<CString>)
    requires |hskVocab| == MaxHskLevels && |tocflVocab| == MaxTocflLevels
    ensures var f := Fields(StripLineEnd(line));
      (out.None? <==> |f| < 3)
      && (|f| >= 3 ==> out == Some(OutputRow(f[0], f[1], f[2],
                                             LowestLevel(f[0], hskVocab, MaxHskLevels),
                                             LowestLevel(f[0], tocflVocab, MaxTocflLevels))))
  {
    var stripped := StripLineEnd(line);
    var fields := SplitFields(stripped);
    if |fields| < 3 {
      return None;
    }
    var hsk := FindLevel(fields[0], hskVocab, MaxHskLevels);
    var tocfl := FindLevel(fields[0], tocflVocab, MaxTocflLevels);
    var row := OutputRow(fields[0], fields[1], fields[2], hsk, tocfl);
    out := Some(row);
  }
}
