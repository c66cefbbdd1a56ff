/**
 * Text primitives shared by the application and the data-preparation scripts:
 * whitespace classes of Python and JavaScript, trimming, substring search,
 * `str.split(sep)[0]`, the bracket-removal regular expression `[(].*?[)]`,
 * the CJK Unified Ideographs range and decimal rendering of numbers.
 */
module Text {
  import opened Wrappers

  // ---------------------------------------------------------------------------
  // Character classes
  // ---------------------------------------------------------------------------

  /** Python's `str.isspace()`; also what `\s` matches in a `str` pattern and what `str.strip()` removes. */
  predicate PySpace(c: char) {
    c == ' ' || ('\t' <= c <= '\r') || ('\U{1C}' <= c <= '\U{1F}') || c == '\U{85}' || c == '\U{A0}'
    || c == '\U{1680}' || ('\U{2000}' <= c <= '\U{200A}') || c == '\U{2028}' || c == '\U{2029}'
    || c == '\U{202F}' || c == '\U{205F}' || c == '\U{3000}'
  }

  /** The characters JavaScript's `String.prototype.trim()` removes (WhiteSpace and LineTerminator). */
  predicate JsSpace(c: char) {
    c == ' ' || ('\t' <= c <= '\r') || c == '\U{A0}' || c == '\U{1680}' || ('\U{2000}' <= c <= '\U{200A}')
    || c == '\U{2028}' || c == '\U{2029}' || c == '\U{202F}' || c == '\U{205F}' || c == '\U{3000}'
    || c == '\U{FEFF}'
  }

  /** A CJK Unified Ideograph, U+4E00..U+9FFF (the regular expression `[一-鿿]`). */
  predicate IsCjk(c: char) {
    '\U{4E00}' <= c <= '\U{9FFF}'
  }

  predicate IsAsciiAlnum(c: char) {
    ('0' <= c <= '9') || ('a' <= c <= 'z') || ('A' <= c <= 'Z')
  }

  lemma CjkIsNotSpace(c: char)
    ensures IsCjk(c) ==> !PySpace(c) && !JsSpace(c)
  {
  }

  // ---------------------------------------------------------------------------
  // Trimming
  // ---------------------------------------------------------------------------

  function TrimStart(s: string, space: char -> bool): (r: string)
    ensures |r| <= |s| && r == s[|s| - |r|..]
    ensures r == [] || !space(r[0])
    ensures forall k :: 0 <= k < |s| - |r| ==> space(s[k])
  {
    if s != [] && space(s[0]) then TrimStart(s[1..], space) else s
  }

  function TrimEnd(s: string, space: char -> bool): (r: string)
    ensures |r| <= |s| && r == s[..|r|]
    ensures r == [] || !space(r[|r| - 1])
    ensures forall k :: |r| <= k < |s| ==> space(s[k])
  {
    if s != [] && space(s[|s| - 1]) then TrimEnd(s[..|s| - 1], space) else s
  }

  /** Both ends trimmed: Python `str.strip()` with `PySpace`, JavaScript `trim()` with `JsSpace`. */
  function Trim(s: string, space: char -> bool): (r: string)
  {
    TrimEnd(TrimStart(s, space), space)
  }

  /** `Trim` keeps one contiguous slice `s[i..j]` of `s`, neither end of which is a space, and drops only spaces. */
  lemma TrimIsSlice(s: string, space: char -> bool) returns (i: nat, j: nat)
    ensures i <= j <= |s| && Trim(s, space) == s[i..j]
    ensures forall k :: 0 <= k < i ==> space(s[k])
    ensures forall k :: j <= k < |s| ==> space(s[k])
    ensures i < j ==> !space(s[i]) && !space(s[j - 1])
  {
    var t := TrimStart(s, space);
    i := |s| - |t|;
    assert t == s[i..];
    j := TrimEndOfSuffix(s, i, t, space);
  }

  /** Trimming the end of the suffix `t == s[i..]` keeps `s[i..j]` and drops only spaces after `j`. */
  lemma TrimEndOfSuffix(s: string, i: nat, t: string, space: char -> bool) returns (j: nat)
    requires i <= |s| && t == s[i..] && (t == [] || !space(t[0]))
    ensures i <= j <= |s| && TrimEnd(t, space) == s[i..j]
    ensures forall k :: j <= k < |s| ==> space(s[k])
    ensures i < j ==> !space(s[i]) && !space(s[j - 1])
  {
    var r := TrimEnd(t, space);
    j := i + |r|;
    assert r == t[..j - i];
    assert t[..j - i] == s[i..j];
    forall k | j <= k < |s|
      ensures space(s[k])
    {
      assert s[k] == t[k - i];
    }
    if i < j {
      assert s[i] == r[0] && s[j - 1] == r[|r| - 1];
    }
  }

  /** Trimming again changes nothing. */
  lemma TrimIdempotent(s: string, space: char -> bool)
    ensures Trim(Trim(s, space), space) == Trim(s, space)
  {
    var r := Trim(s, space);
    if r != [] {
      assert !space(r[0]);
      assert TrimStart(r, space) == r;
      assert TrimEnd(r, space) == r;
    }
  }

  /** A string without spaces is its own trim. */
  lemma TrimOfSpaceless(s: string, space: char -> bool)
    requires forall k :: 0 <= k < |s| ==> !space(s[k])
    ensures Trim(s, space) == s
  {
  }

  // ---------------------------------------------------------------------------
  // Searching
  // ---------------------------------------------------------------------------

  /** `q` occurs in `s` starting at position `i`. */
  predicate OccursAt<T(==)>(s: seq<T>, q: seq<T>, i: int) {
    0 <= i && i + |q| <= |s| && s[i..i + |q|] == q
  }

  /** `s.includes(q)` / `q in s` for strings, and the same for byte strings. */
  predicate Contains<T(==)>(s: seq<T>, q: seq<T>) {
    exists i :: 0 <= i <= |s| && OccursAt(s, q, i)
  }

  /** A string of one character occurs exactly when that character does. */
  lemma ContainsOne<T>(s: seq<T>, c: T)
    ensures Contains(s, [c]) <==> c in s
  {
    if c in s {
      var i :| 0 <= i < |s| && s[i] == c;
      assert s[i..i + 1] == [s[i]];
      assert OccursAt(s, [c], i);
    } else {
      forall i | 0 <= i <= |s|
        ensures !OccursAt(s, [c], i)
      {
        if i < |s| {
          assert s[i..i + 1] == [s[i]];
        }
      }
    }
  }

  /** The same test, computed by scanning; the witness is the first position at or after `from`. */
  function FindFrom(s: string, q: string, from: nat): (r: Option<nat>)
    requires from <= |s|
    ensures r.Some? ==> from <= r.value && OccursAt(s, q, r.value)
    ensures r.Some? ==> forall i :: from <= i < r.value ==> !OccursAt(s, q, i)
    ensures r.None? ==> forall i :: from <= i ==> !OccursAt(s, q, i)
    decreases |s| - from
  {
    if from + |q| > |s| then None
    else if s[from..from + |q|] == q then Some(from)
    else FindFrom(s, q, from + 1)
  }

  lemma FindIsContains(s: string, q: string)
    ensures FindFrom(s, q, 0).Some? <==> Contains(s, q)
  {
    if FindFrom(s, q, 0).Some? {
      assert OccursAt(s, q, FindFrom(s, q, 0).value);
    }
  }

  /** Python `s.split(sep)[0]`: the part of `s` before the first occurrence of `sep`, or all of `s`. */
  function BeforeFirst(s: string, sep: string): (r: string)
    requires sep != []
    ensures |r| <= |s| && r == s[..|r|]
  {
    match FindFrom(s, sep, 0)
    case Some(k) => s[..k]
    case None => s
  }

  /** `BeforeFirst` stops exactly at the first separator, and is all of `s` when there is none. */
  lemma BeforeFirstSpec(s: string, sep: string)
    requires sep != []
    ensures !Contains(s, sep) ==> BeforeFirst(s, sep) == s
    ensures Contains(s, sep) ==> var k := |BeforeFirst(s, sep)|;
      OccursAt(s, sep, k) && forall i :: 0 <= i < k ==> !OccursAt(s, sep, i)
  {
    FindIsContains(s, sep);
  }

  /** The result never contains the separator. */
  lemma BeforeFirstHasNoSeparator(s: string, sep: string)
    requires sep != []
    ensures !Contains(BeforeFirst(s, sep), sep)
  {
    var r := BeforeFirst(s, sep);
    if Contains(r, sep) {
      var i :| 0 <= i <= |r| && OccursAt(r, sep, i);
      assert i + |sep| <= |r| <= |s|;
      assert s[i..i + |sep|] == r[i..i + |sep|];
      assert OccursAt(s, sep, i);
      FindIsContains(s, sep);
      assert false;
    }
  }

  // ---------------------------------------------------------------------------
  // re.sub(r"[<opens>].*?[<closes>]", "", s)
  // ---------------------------------------------------------------------------

  /**
   * Where the lazy `.*?[closes]` that follows an opening bracket ends in `t`: the first position
   * holding a closing character, provided no line feed (which `.` does not match) comes first.
   */
  function FindClose(t: string, closes: set<char>): (r: Option<nat>)
    ensures r.Some? ==> r.value < |t| && t[r.value] in closes
    ensures r.Some? ==> forall k :: 0 <= k < r.value ==> t[k] !in closes && t[k] != '\n'
    ensures r.None? ==> forall k :: 0 <= k < |t| && t[k] in closes ==> exists m :: 0 <= m < k && t[m] == '\n'
  {
    if t == [] then None
    else if t[0] in closes then Some(0)
    else if t[0] == '\n' then None
    else match FindClose(t[1..], closes)
      case Some(k) => Some(k + 1)
      case None => None
  }

  /**
   * The regular-expression substitution, leftmost match first, resuming after each match; an
   * opening character with no reachable closing character stays in the text.
   */
  function RemoveBracketed(s: string, opens: set<char>, closes: set<char>): (r: string)
    ensures |r| <= |s|
    decreases |s|
  {
    if s == [] then ""
    else if s[0] in opens then
      match FindClose(s[1..], closes)
      case Some(k) => RemoveBracketed(s[k + 2..], opens, closes)
      case None => [s[0]] + RemoveBracketed(s[1..], opens, closes)
    else [s[0]] + RemoveBracketed(s[1..], opens, closes)
  }

  /** Text without an opening character passes through unchanged. */
  lemma {:induction false} RemoveBracketedNoOpen(s: string, opens: set<char>, closes: set<char>)
    requires forall k :: 0 <= k < |s| ==> s[k] !in opens
    ensures RemoveBracketed(s, opens, closes) == s
  {
    if s != [] {
      RemoveBracketedNoOpen(s[1..], opens, closes);
    }
  }

  /** Every character that survives comes from `s`: the result is a subsequence of the input. */
  lemma {:induction false} RemoveBracketedSubsequence(s: string, opens: set<char>, closes: set<char>)
    ensures multiset(RemoveBracketed(s, opens, closes)) <= multiset(s)
    decreases |s|
  {
    if s != [] {
      assert s == [s[0]] + s[1..];
      if s[0] in opens && FindClose(s[1..], closes).Some? {
        var k := FindClose(s[1..], closes).value;
        RemoveBracketedSubsequence(s[k + 2..], opens, closes);
        assert s == s[..k + 2] + s[k + 2..];
        assert multiset(s) == multiset(s[..k + 2]) + multiset(s[k + 2..]);
      } else {
        RemoveBracketedSubsequence(s[1..], opens, closes);
      }
    }
  }

  // ---------------------------------------------------------------------------
  // The word cleaning shared by the Python scripts
  // ---------------------------------------------------------------------------

  /** Python `str.strip()`: leading `PySpace` characters removed, then trailing ones. */
  function Strip(s: string): (r: string)
    ensures |r| <= |s|
  {
    if s != [] && PySpace(s[0]) then Strip(s[1..]) else StripEnd(s)
  }

  /** Python `str.rstrip()`. */
  function StripEnd(s: string): (r: string)
    ensures |r| <= |s|
  {
    if s != [] && PySpace(s[|s| - 1]) then StripEnd(s[..|s| - 1]) else s
  }

  lemma {:induction false} StripEndIsTrimEnd(s: string)
    ensures StripEnd(s) == TrimEnd(s, PySpace)
  {
    if s != [] && PySpace(s[|s| - 1]) {
      StripEndIsTrimEnd(s[..|s| - 1]);
    }
  }

  /** `Strip` is `Trim` with Python's spaces. */
  lemma {:induction false} StripIsTrim(s: string)
    ensures Strip(s) == Trim(s, PySpace)
  {
    if s != [] && PySpace(s[0]) {
      StripIsTrim(s[1..]);
    } else {
      StripEndIsTrimEnd(s);
    }
  }

  /**
   * The literals a script writes for the full-width pipe and for the bracket classes of its
   * regular expression. Some scripts hold these as mis-decoded text, so each spelling is kept
   * code point for code point.
   */
  datatype Delims = Delims(pipe: string, opens: set<char>, closes: set<char>)

  /** `"｜"`, `[（(]` and `[）)]` as intended: U+FF5C, U+FF08 and U+FF09. */
  const FullWidth: Delims := Delims("\U{FF5C}", {'\U{FF08}', '('}, {'\U{FF09}', ')'})

  /** The same literals read back as Windows-1252 text in `scripts/add_hanviet_from_csv.py`. */
  const Latin1Spelling: Delims :=
    Delims("\U{EF}\U{BD}\U{153}", {'\U{EF}', '\U{BC}', '\U{2C6}', '('}, {'\U{EF}', '\U{BC}', '\U{2030}', ')'})

  /** The same literals read back as Mac Roman text in `scripts/process_hsk7_json.py`. */
  const MacRomanSpelling: Delims :=
    Delims("\U{D4}\U{3A9}\U{FA}", {'\U{D4}', '\U{BA}', '\U{E0}', '('}, {'\U{D4}', '\U{BA}', '\U{E2}', ')'})

  /**
   * `re.sub(r"[opens].*?[closes]", "", s.split(pipe)[0].split("|")[0]).strip()`: the part
   * before the first pipe of either kind, without bracketed spans, stripped.
   */
  function CleanWord(s: string, d: Delims): (r: string)
    requires d.pipe != []
    ensures |r| <= |s|
  {
    var cut := BeforeFirst(BeforeFirst(s, d.pipe), "|");
    var r := Strip(RemoveBracketed(cut, d.opens, d.closes));
    assert |r| <= |RemoveBracketed(cut, d.opens, d.closes)|;
    r
  }

  // ---------------------------------------------------------------------------
  // Counting
  // ---------------------------------------------------------------------------

  /** `len(re.findall(r"[一-鿿]", s))`. */
  function CountCjk(s: string): (n: nat)
    ensures n <= |s|
  {
    if s == [] then 0 else (if IsCjk(s[0]) then 1 else 0) + CountCjk(s[1..])
  }

  lemma {:induction false} CountCjkAppend(a: string, b: string)
    ensures CountCjk(a + b) == CountCjk(a) + CountCjk(b)
  {
    if a == [] {
      assert a + b == b;
    } else {
      assert (a + b)[0] == a[0];
      assert (a + b)[1..] == a[1..] + b;
      CountCjkAppend(a[1..], b);
    }
  }

  /** Removing spaces from the ends never changes how many ideographs there are. */
  lemma CountCjkTrim(s: string)
    ensures CountCjk(Trim(s, PySpace)) == CountCjk(s)
  {
    var i, j := TrimIsSlice(s, PySpace);
    forall k | 0 <= k < i || j <= k < |s|
      ensures !IsCjk(s[k])
    {
      CjkIsNotSpace(s[k]);
    }
    CountCjkSlice(s, i, j);
  }

  /** Cutting off ends that hold no ideograph keeps the count. */
  lemma CountCjkSlice(s: string, i: nat, j: nat)
    requires i <= j <= |s|
    requires forall k :: 0 <= k < i || j <= k < |s| ==> !IsCjk(s[k])
    ensures CountCjk(s[i..j]) == CountCjk(s)
  {
    var a, m, b := s[..i], s[i..j], s[j..];
    forall k | 0 <= k < |a|
      ensures !IsCjk(a[k])
    {
      assert a[k] == s[k];
    }
    forall k | 0 <= k < |b|
      ensures !IsCjk(b[k])
    {
      assert b[k] == s[j + k];
    }
    SplitThree(s, i, j);
    CountCjkAppend(a + m, b);
    CountCjkAppend(a, m);
    CountCjkNone(a);
    CountCjkNone(b);
  }

  lemma SplitThree<T>(s: seq<T>, i: nat, j: nat)
    requires i <= j <= |s|
    ensures s == (s[..i] + s[i..j]) + s[j..]
  {
    assert s[..j] == s[..i] + s[i..j];
    assert s == s[..j] + s[j..];
  }

  lemma {:induction false} CountCjkNone(s: string)
    requires forall k :: 0 <= k < |s| ==> !IsCjk(s[k])
    ensures CountCjk(s) == 0
  {
    if s != [] {
      CountCjkNone(s[1..]);
    }
  }

  // ---------------------------------------------------------------------------
  // Decimal rendering: JavaScript template literals, Python str(), C "%d"
  // ---------------------------------------------------------------------------

  predicate IsDigit(c: char) {
    '0' <= c <= '9'
  }

  function Digit(d: nat): (c: char)
    requires d < 10
    ensures IsDigit(c) && (c as int) - ('0' as int) == d
  {
    (('0' as int) + d) as char
  }

  /** The decimal digits of `n`, most significant first, without leading zeros. */
  function NatToString(n: nat): (s: string)
    ensures s != [] && forall k :: 0 <= k < |s| ==> IsDigit(s[k])
    decreases n
  {
    if n < 10 then [Digit(n)] else NatToString(n / 10) + [Digit(n % 10)]
  }

  /** C's `%d` and JavaScript's number-to-string for an integer. */
  function IntToString(i: int): (s: string)
  {
    if i < 0 then "-" + NatToString(-i) else NatToString(i)
  }

  /** The value of a string of decimal digits. */
  function DigitsValue(s: string): (n: nat)
    requires forall k :: 0 <= k < |s| ==> IsDigit(s[k])
  {
    if s == [] then 0
    else
      var c := s[|s| - 1];
      assert IsDigit(c);
      DigitsValue(s[..|s| - 1]) * 10 + ((c as int) - ('0' as int))
  }

  /** Reading the digits back gives the number: `NatToString` is injective. */
  lemma {:induction false} NatToStringRoundTrip(n: nat)
    ensures DigitsValue(NatToString(n)) == n
    decreases n
  {
    var s := NatToString(n);
    if n >= 10 {
      NatToStringRoundTrip(n / 10);
      assert s[..|s| - 1] == NatToString(n / 10);
    }
  }

  lemma NatToStringInjective(a: nat, b: nat)
    ensures NatToString(a) == NatToString(b) ==> a == b
  {
    NatToStringRoundTrip(a);
    NatToStringRoundTrip(b);
  }

  /**
   * Two strings made of one number, a separator that is not a digit and a second number are
   * equal only if both numbers are: the key `${level}-${id}` names exactly one (level, id).
   */
  lemma {:induction false} NumberPairInjective(a: nat, b: nat, c: nat, d: nat, sep: char)
    requires !IsDigit(sep)
    ensures NatToString(a) + [sep] + NatToString(b) == NatToString(c) + [sep] + NatToString(d) ==> a == c && b == d
  {
    var x, y := NatToString(a), NatToString(c);
    var l, r := x + [sep] + NatToString(b), y + [sep] + NatToString(d);
    if l == r {
      LeadingDigitsOfNumber(x, NatToString(b), sep);
      LeadingDigitsOfNumber(y, NatToString(d), sep);
      assert x == l[..|x|] && y == r[..|y|];
      NatToStringInjective(a, c);
      assert NatToString(b) == l[|x| + 1..] && NatToString(d) == r[|y| + 1..];
      NatToStringInjective(b, d);
    }
  }

  /** How many decimal digits `s` starts with. */
  function LeadingDigits(s: string): (n: nat)
    ensures n <= |s|
  {
    if s == [] || !IsDigit(s[0]) then 0 else 1 + LeadingDigits(s[1..])
  }

  lemma {:induction false} LeadingDigitsOfNumber(x: string, rest: string, sep: char)
    requires forall k :: 0 <= k < |x| ==> IsDigit(x[k])
    requires !IsDigit(sep)
    ensures LeadingDigits(x + [sep] + rest) == |x|
  {
    if x != [] {
      assert (x + [sep] + rest)[1..] == x[1..] + [sep] + rest;
      LeadingDigitsOfNumber(x[1..], rest, sep);
    }
  }

  /** A fixed prefix followed by a number names exactly one number: `sentence-${index}` keys. */
  lemma PrefixedNumberInjective(prefix: string, a: nat, b: nat)
    ensures prefix + NatToString(a) == prefix + NatToString(b) ==> a == b
  {
    if prefix + NatToString(a) == prefix + NatToString(b) {
      assert NatToString(a) == (prefix + NatToString(a))[|prefix|..];
      assert NatToString(b) == (prefix + NatToString(b))[|prefix|..];
      NatToStringInjective(a, b);
    }
  }

  /** `sep.join(parts)`. */
  function Join(parts: seq<string>, sep: string): (r: string)
  {
    if parts == [] then ""
    else if |parts| == 1 then parts[0]
    else Join(parts[..|parts| - 1], sep) + sep + parts[|parts| - 1]
  }

  lemma JoinSnoc(parts: seq<string>, p: string, sep: string)
    ensures Join(parts + [p], sep) == if parts == [] then p else Join(parts, sep) + sep + p
  {
    assert (parts + [p])[..|parts|] == parts;
  }

  /** An occurrence stays an occurrence when text is added on either side. */
  lemma OccursInAppend<T>(a: seq<T>, b: seq<T>, q: seq<T>, i: int)
    ensures OccursAt(a, q, i) ==> OccursAt(a + b, q, i)
    ensures OccursAt(b, q, i) ==> OccursAt(a + b, q, |a| + i)
  {
    if OccursAt(a, q, i) {
      assert (a + b)[i..i + |q|] == a[i..i + |q|];
    }
    if OccursAt(b, q, i) {
      assert (a + b)[|a| + i..|a| + i + |q|] == b[i..i + |q|];
    }
  }

  /** Every part occurs in the joined text. */
  lemma {:induction false} JoinContainsParts(parts: seq<string>, sep: string, k: nat)
    requires k < |parts|
    ensures Contains(Join(parts, sep), parts[k])
  {
    var r := Join(parts, sep);
    if |parts| == 1 {
      assert OccursAt(r, parts[k], 0);
    } else {
      var init := parts[..|parts| - 1];
      var last := parts[|parts| - 1];
      assert r == (Join(init, sep) + sep) + last;
      if k == |parts| - 1 {
        assert OccursAt(last, last, 0);
        OccursInAppend(Join(init, sep) + sep, last, last, 0);
      } else {
        JoinContainsParts(init, sep, k);
        var i :| 0 <= i <= |Join(init, sep)| && OccursAt(Join(init, sep), init[k], i);
        OccursInAppend(Join(init, sep), sep, init[k], i);
        OccursInAppend(Join(init, sep) + sep, last, init[k], i);
        assert OccursAt(r, parts[k], i);
      }
    }
  }
}
