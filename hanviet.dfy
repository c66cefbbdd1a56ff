/**
 * The Han-Viet reading table of `scripts/add_hanviet_from_csv.py`. Rows of a CSV file become a
 * dictionary from `char|pinyin` keys to cleaned readings. A second pass gives every character a
 * `char|*` key. The lookup joins all readings of a single character with "/", and spells a longer
 * word character by character.
 *
 * A Python `dict` keeps its keys in insertion order, and an assignment to an existing key
 * keeps that key's position. The table is therefore a sequence of (key, value) pairs.
 */
module HanViet {
  import opened Wrappers
  import opened Text
  import opened Collections

  type Table = seq<(string, string)>

  // ---------------------------------------------------------------------------
  // The dictionary
  // ---------------------------------------------------------------------------

  predicate DistinctKeys(t: Table) {
    forall i, j :: 0 <= i < j < |t| ==> t[i].0 != t[j].0
  }

  /** The position of key `k`. */
  function Find(t: Table, k: string): (r: Option<nat>)
    ensures r.Some? ==> r.value < |t| && t[r.value].0 == k
    ensures r.Some? ==> forall i :: 0 <= i < r.value ==> t[i].0 != k
    ensures r.None? ==> forall i :: 0 <= i < |t| ==> t[i].0 != k
  {
    if t == [] then None
    else if t[0].0 == k then Some(0)
    else match Find(t[1..], k)
      case Some(i) => Some(i + 1)
      case None => None
  }

  /** `t.get(k)`. */
  function Lookup(t: Table, k: string): (r: Option<string>)
    ensures r.Some? ==> (k, r.value) in t
    ensures r.None? ==> forall i :: 0 <= i < |t| ==> t[i].0 != k
  {
    match Find(t, k)
    case Some(i) => Some(t[i].1)
    case None => None
  }

  /** The first position holding key `k` is where `Find` stops. */
  lemma FindFirst(t: Table, k: string, j: nat)
    requires j < |t| && t[j].0 == k && forall i :: 0 <= i < j ==> t[i].0 != k
    ensures Find(t, k) == Some(j)
  {
  }

  /** Looking up in `a + b` consults `b` only for keys `a` lacks. */
  lemma LookupAppend(a: Table, b: Table, k: string)
    ensures Lookup(a + b, k) == if Lookup(a, k).Some? then Lookup(a, k) else Lookup(b, k)
  {
    match Find(a, k)
    case Some(i) =>
      assert (a + b)[i] == a[i];
      FindFirst(a + b, k, i);
    case None =>
      match Find(b, k)
      case Some(i) =>
        assert (a + b)[|a| + i] == b[i];
        FindFirst(a + b, k, |a| + i);
      case None =>
        assert forall i :: 0 <= i < |a + b| ==> (a + b)[i].0 != k by {
          forall i | 0 <= i < |a + b|
            ensures (a + b)[i].0 != k
          {
            if i >= |a| {
              assert (a + b)[i] == b[i - |a|];
            }
          }
        }
  }

  /** `t[k] = v`: an existing key keeps its place and takes the new value, a new key goes last. */
  function Put(t: Table, k: string, v: string): (r: Table)
    ensures |r| == if Find(t, k).Some? then |t| else |t| + 1
    ensures forall i :: 0 <= i < |t| ==> r[i].0 == t[i].0 && (t[i].0 != k ==> r[i] == t[i])
    ensures Find(t, k).None? ==> r == t + [(k, v)]
    ensures Lookup(r, k) == Some(v)
  {
    match Find(t, k)
    case Some(i) =>
      var r := t[i := (k, v)];
      FindFirst(r, k, i);
      r
    case None =>
      var r := t + [(k, v)];
      FindFirst(r, k, |t|);
      r
  }

  /** Assigning to one key leaves what every other key maps to as it was. */
  lemma PutOther(t: Table, k: string, v: string, k': string)
    requires k' != k
    ensures Lookup(Put(t, k, v), k') == Lookup(t, k')
  {
    var r := Put(t, k, v);
    if Find(t, k).None? {
      LookupAppend(t, [(k, v)], k');
    } else {
      match Find(t, k')
      case Some(j) =>
        FindFirst(r, k', j);
      case None =>
        assert forall i :: 0 <= i < |r| ==> r[i].0 != k';
    }
  }

  lemma PutDistinct(t: Table, k: string, v: string)
    requires DistinctKeys(t)
    ensures DistinctKeys(Put(t, k, v))
  {
  }

  // ---------------------------------------------------------------------------
  // Keys and readings
  // ---------------------------------------------------------------------------

  /** `pinyin if pinyin and pinyin != "*" else "*"`. */
  function PinyinKey(pinyin: string): string {
    if pinyin != "" && pinyin != "*" then pinyin else "*"
  }

  /** `f"{char}|{pinyin_key}"`. */
  function KeyOf(c: string, pinyin: string): (key: string)
    ensures c + "|" <= key
  {
    c + "|" + PinyinKey(pinyin)
  }

  /** `f"{char}|*"`. */
  function CharOnlyKey(c: string): (key: string)
    ensures c + "|" <= key
  {
    c + "|*"
  }

  lemma CharOnlyKeyInjective(c: string, d: string)
    ensures CharOnlyKey(c) == CharOnlyKey(d) ==> c == d
  {
    if CharOnlyKey(c) == CharOnlyKey(d) {
      assert c == CharOnlyKey(c)[..|c|];
      assert d == CharOnlyKey(d)[..|d|];
    }
  }

  /** A key `get_all_hanviet_readings` collects for `c`: it starts with `c|` and is not `c|*`. */
  predicate IsReadingKey(key: string, c: string) {
    c + "|" <= key && key != CharOnlyKey(c)
  }

  /** The values of the reading keys of `c`, in table order. */
  function Readings(t: Table, c: string): (r: seq<string>)
    ensures |r| <= |t|
  {
    if t == [] then []
    else (if IsReadingKey(t[0].0, c) then [t[0].1] else []) + Readings(t[1..], c)
  }

  /** A value is a reading of `c` exactly when some reading key of `c` holds it. */
  lemma {:induction false} ReadingsMembers(t: Table, c: string, v: string)
    ensures v in Readings(t, c) <==> exists i :: 0 <= i < |t| && IsReadingKey(t[i].0, c) && t[i].1 == v
  {
    if t != [] {
      ReadingsMembers(t[1..], c, v);
      if exists i :: 0 <= i < |t| && IsReadingKey(t[i].0, c) && t[i].1 == v {
        var i :| 0 <= i < |t| && IsReadingKey(t[i].0, c) && t[i].1 == v;
        if i > 0 {
          assert t[1..][i - 1] == t[i];
        }
      }
      if exists i :: 0 <= i < |t[1..]| && IsReadingKey(t[1..][i].0, c) && t[1..][i].1 == v {
        var i :| 0 <= i < |t[1..]| && IsReadingKey(t[1..][i].0, c) && t[1..][i].1 == v;
        assert t[i + 1] == t[1..][i];
      }
    }
  }

  lemma {:induction false} ReadingsAppend(a: Table, b: Table, c: string)
    ensures Readings(a + b, c) == Readings(a, c) + Readings(b, c)
  {
    if a == [] {
      assert a + b == b;
    } else {
      assert (a + b)[0] == a[0];
      assert (a + b)[1..] == a[1..] + b;
      ReadingsAppend(a[1..], b, c);
      var head := if IsReadingKey(a[0].0, c) then [a[0].1] else [];
      assert Readings(a + b, c) == head + Readings(a[1..] + b, c);
      SeqAssoc(head, Readings(a[1..], c), Readings(b, c));
    }
  }

  /** `get_all_hanviet_readings(char, hanviet_data)`. */
  method AllReadings(c: string, t: Table) returns (readings: seq<string>)
    ensures readings == Readings(t, c)
  {
    readings := [];
    var i := 0;
    while i < |t|
      invariant 0 <= i <= |t|
      invariant readings + Readings(t[i..], c) == Readings(t, c)
    {
      var (key, value) := t[i];
      ghost var head := if IsReadingKey(key, c) then [value] else [];
      ReadingsStep(t, i, c);
      SeqAssoc(readings, head, Readings(t[i + 1..], c));
      if c + "|" <= key && key != CharOnlyKey(c) {
        readings := readings + [value];
      } else {
        assert readings + head == readings;
      }
      i := i + 1;
    }
  }

  lemma ReadingsStep(t: Table, i: nat, c: string)
    requires i < |t|
    ensures Readings(t[i..], c) == (if IsReadingKey(t[i].0, c) then [t[i].1] else []) + Readings(t[i + 1..], c)
  {
    assert t[i..][1..] == t[i + 1..];
  }

  // ---------------------------------------------------------------------------
  // Loading the CSV rows
  // ---------------------------------------------------------------------------

  /** The `char`, `pinyin` and `hanviet` columns of a row, "" where a column is absent. */
  datatype Row = Row(character: string, pinyin: string, hanviet: string)

  /** `s.replace(pat, repl)`: every occurrence, scanning left to right without overlaps. */
  function ReplaceAll(s: string, pat: string, repl: string): (r: string)
    requires pat != []
    decreases |s|
  {
    if |s| < |pat| then s
    else if s[..|pat|] == pat then repl + ReplaceAll(s[|pat|..], pat, repl)
    else [s[0]] + ReplaceAll(s[1..], pat, repl)
  }

  /** Removing a one-character string removes every copy of that character. */
  lemma {:induction false} ReplaceAllRemoves(s: string, c: char)
    ensures c !in ReplaceAll(s, [c], "")
    decreases |s|
  {
    if |s| >= 1 {
      ReplaceAllRemoves(s[1..], c);
    }
  }

  /** A string without some character of `pat` holds no occurrence of `pat`, so nothing is replaced. */
  lemma {:induction false} ReplaceAllAbsent(s: string, pat: string, repl: string, c: char)
    requires pat != [] && c in pat && c !in s
    ensures ReplaceAll(s, pat, repl) == s
    decreases |s|
  {
    if |s| >= |pat| {
      ReplaceAllAbsent(s[1..], pat, repl, c);
      assert s == [s[0]] + s[1..];
    }
  }

  /** `hanviet.replace("['", "").replace("']", "").replace("'", "")`. */
  function CleanReading(h: string): (r: string)
  {
    ReplaceAll(ReplaceAll(ReplaceAll(h, "['", ""), "']", ""), "'", "")
  }

  /** A cleaned reading holds no apostrophe, and a reading without one is stored as it is. */
  lemma CleanReadingSpec(h: string)
    ensures '\'' !in CleanReading(h)
    ensures '\'' !in h ==> CleanReading(h) == h
  {
    ReplaceAllRemoves(ReplaceAll(ReplaceAll(h, "['", ""), "']", ""), '\'');
    if '\'' !in h {
      assert "['"[1] == '\'' && "']"[0] == '\'';
      ReplaceAllAbsent(h, "['", "", '\'');
      ReplaceAllAbsent(h, "']", "", '\'');
      ReplaceAllAbsent(h, "'", "", '\'');
    }
  }

  /** `if char and hanviet:` on the stripped columns. */
  predicate Accepted(row: Row) {
    Strip(row.character) != "" && Strip(row.hanviet) != ""
  }

  function RowKey(row: Row): string {
    KeyOf(Strip(row.character), Strip(row.pinyin))
  }

  /** The dictionary after the first loop over `rows`. */
  function Inserted(rows: seq<Row>): Table
  {
    if rows == [] then []
    else
      var t := Inserted(rows[..|rows| - 1]);
      var row := rows[|rows| - 1];
      if Accepted(row) then Put(t, RowKey(row), CleanReading(Strip(row.hanviet))) else t
  }

  /** The keys of `char_pinyin_counts` after the first loop: accepted characters, first appearance first. */
  function SeenChars(rows: seq<Row>): (cs: seq<string>)
    ensures NoDup(cs)
  {
    if rows == [] then []
    else
      var cs := SeenChars(rows[..|rows| - 1]);
      var row := rows[|rows| - 1];
      if Accepted(row) && Strip(row.character) !in cs then cs + [Strip(row.character)] else cs
  }

  /** One turn of the second loop: give `c` a `c|*` key with its first reading, unless it has one. */
  function FallbackStep(t: Table, c: string): Table
  {
    if Lookup(t, CharOnlyKey(c)).Some? then t
    else
      var rs := Readings(t, c);
      if rs == [] then t else Put(t, CharOnlyKey(c), rs[0])
  }

  function Fallback(t: Table, cs: seq<string>): Table
    decreases |cs|
  {
    if cs == [] then t else Fallback(FallbackStep(t, cs[0]), cs[1..])
  }

  /** What `load_hanviet_csv` returns for `rows`. */
  function Loaded(rows: seq<Row>): Table
  {
    Fallback(Inserted(rows), SeenChars(rows))
  }

  /** `load_hanviet_csv` once the file is open: both loops. */
  method LoadTable(rows: seq<Row>) returns (table: Table)
    ensures table == Loaded(rows)
  {
    table := [];
    var seen: seq<string> := [];
    var i := 0;
    while i < |rows|
      invariant 0 <= i <= |rows|
      invariant table == Inserted(rows[..i]) && seen == SeenChars(rows[..i])
    {
      InsertedStep(rows, i);
      var c, pinyin, hanviet := Strip(rows[i].character), Strip(rows[i].pinyin), Strip(rows[i].hanviet);
      if c != "" && hanviet != "" {
        if c !in seen {
          seen := seen + [c];
        }
        table := Put(table, KeyOf(c, pinyin), CleanReading(hanviet));
      }
      i := i + 1;
    }
    assert rows[..i] == rows;
    var j := 0;
    while j < |seen|
      invariant 0 <= j <= |seen|
      invariant Fallback(table, seen[j..]) == Loaded(rows)
    {
      var c := seen[j];
      FallbackAt(table, seen, j);
      ghost var next := FallbackStep(table, c);
      if Lookup(table, CharOnlyKey(c)).None? {
        var first := FirstReading(table, c);
        if first.Some? {
          table := Put(table, CharOnlyKey(c), first.value);
        }
      }
      assert table == next;
      j := j + 1;
    }
  }

  lemma InsertedStep(rows: seq<Row>, i: nat)
    requires i < |rows|
    ensures var row := rows[i];
      Inserted(rows[..i + 1])
        == (if Accepted(row) then Put(Inserted(rows[..i]), RowKey(row), CleanReading(Strip(row.hanviet))) else Inserted(rows[..i]))
    ensures var row, seen := rows[i], SeenChars(rows[..i]);
      SeenChars(rows[..i + 1]) == if Accepted(row) && Strip(row.character) !in seen then seen + [Strip(row.character)] else seen
  {
    assert rows[..i + 1][..i] == rows[..i];
  }

  lemma FallbackAt(t: Table, cs: seq<string>, j: nat)
    requires j < |cs|
    ensures Fallback(t, cs[j..]) == Fallback(FallbackStep(t, cs[j]), cs[j + 1..])
  {
    assert cs[j..][1..] == cs[j + 1..];
  }

  /** The search loop of the second pass, left at its first hit. */
  method FirstReading(t: Table, c: string) returns (r: Option<string>)
    ensures r.None? <==> Readings(t, c) == []
    ensures r.Some? ==> r.value == Readings(t, c)[0]
  {
    var i := 0;
    while i < |t|
      invariant 0 <= i <= |t|
      invariant Readings(t[i..], c) == Readings(t, c)
    {
      ReadingsStep(t, i, c);
      if c + "|" <= t[i].0 && t[i].0 != CharOnlyKey(c) {
        return Some(t[i].1);
      }
      i := i + 1;
    }
    return None;
  }

  // ---------------------------------------------------------------------------
  // What loading guarantees
  // ---------------------------------------------------------------------------

  /** A row that is not accepted adds nothing. */
  lemma SkippedRow(rows: seq<Row>, row: Row)
    requires !Accepted(row)
    ensures Inserted(rows + [row]) == Inserted(rows) && SeenChars(rows + [row]) == SeenChars(rows)
  {
    assert (rows + [row])[..|rows|] == rows;
  }

  /** An accepted row stores its cleaned reading under its key, replacing what an earlier row stored there. */
  lemma AcceptedRow(rows: seq<Row>, row: Row)
    requires Accepted(row)
    ensures Lookup(Inserted(rows + [row]), RowKey(row)) == Some(CleanReading(Strip(row.hanviet)))
    ensures forall k :: k != RowKey(row) ==> Lookup(Inserted(rows + [row]), k) == Lookup(Inserted(rows), k)
  {
    assert (rows + [row])[..|rows|] == rows;
    forall k | k != RowKey(row)
      ensures Lookup(Inserted(rows + [row]), k) == Lookup(Inserted(rows), k)
    {
      PutOther(Inserted(rows), RowKey(row), CleanReading(Strip(row.hanviet)), k);
    }
  }

  /** Some key of `t` starts with `c|`. */
  predicate Covered(t: Table, c: string) {
    exists i :: 0 <= i < |t| && c + "|" <= t[i].0
  }

  /** Every seen character has a key of its own in the first-pass table. */
  lemma {:induction false} SeenCovered(rows: seq<Row>, c: string)
    requires c in SeenChars(rows)
    ensures Covered(Inserted(rows), c)
  {
    var init, row := rows[..|rows| - 1], rows[|rows| - 1];
    if Accepted(row) {
      if c != Strip(row.character) {
        SeenCovered(init, c);
      }
      PutCovers(Inserted(init), RowKey(row), CleanReading(Strip(row.hanviet)), c);
    } else {
      SeenCovered(init, c);
    }
  }

  lemma PutCovers(t: Table, k: string, v: string, c: string)
    requires Covered(t, c) || c + "|" <= k
    ensures Covered(Put(t, k, v), c)
  {
    var r := Put(t, k, v);
    if c + "|" <= k {
      var i :| 0 <= i < |r| && r[i] == (k, v);
      assert c + "|" <= r[i].0;
    } else {
      var i :| 0 <= i < |t| && c + "|" <= t[i].0;
      assert r[i].0 == t[i].0;
    }
  }

  /** A character with a key of its own has a `c|*` key or at least one reading. */
  lemma CoveredHasReading(t: Table, c: string)
    requires Covered(t, c)
    ensures Lookup(t, CharOnlyKey(c)).Some? || Readings(t, c) != []
  {
    var i :| 0 <= i < |t| && c + "|" <= t[i].0;
    if t[i].0 != CharOnlyKey(c) {
      ReadingsMembers(t, c, t[i].1);
    }
  }

  /** The `c|*` keys the second pass appends to `base`, one per character that lacks one. */
  function Extras(base: Table, cs: seq<string>): Table
    decreases |cs|
  {
    if cs == [] then []
    else
      var c := cs[0];
      (if Lookup(base, CharOnlyKey(c)).None? && Readings(base, c) != []
       then [(CharOnlyKey(c), Readings(base, c)[0])] else [])
      + Extras(base, cs[1..])
  }

  predicate CanFallBack(base: Table, cs: seq<string>) {
    forall c :: c in cs ==> Lookup(base, CharOnlyKey(c)).Some? || Readings(base, c) != []
  }

  /** The second pass only appends, and appends the first reading of the first-pass table. */
  lemma {:induction false} FallbackAppends(base: Table, extra: Table, cs: seq<string>)
    requires NoDup(cs) && CanFallBack(base, cs)
    requires forall j, c :: 0 <= j < |extra| && c in cs ==> extra[j].0 != CharOnlyKey(c)
    ensures Fallback(base + extra, cs) == base + extra + Extras(base, cs)
    decreases |cs|
  {
    if cs != [] {
      var rest := cs[1..];
      var extra2 := FallbackHead(base, extra, cs);
      assert NoDup(rest) && CanFallBack(base, rest);
      FallbackAppends(base, extra2, rest);
      assert Fallback(base + extra, cs) == Fallback(base + extra2, rest);
      SeqAssoc(base, extra2, Extras(base, rest));
      SeqAssoc(base, extra, Extras(base, cs));
    }
  }

  lemma SeqAssoc<T>(a: seq<T>, b: seq<T>, c: seq<T>)
    ensures a + b + c == a + (b + c)
  {
  }

  /** The first turn of the second pass, in the terms of `FallbackAppends`. */
  lemma FallbackHead(base: Table, extra: Table, cs: seq<string>) returns (extra2: Table)
    requires cs != [] && NoDup(cs) && CanFallBack(base, cs)
    requires forall j, c :: 0 <= j < |extra| && c in cs ==> extra[j].0 != CharOnlyKey(c)
    ensures FallbackStep(base + extra, cs[0]) == base + extra2
    ensures extra2 + Extras(base, cs[1..]) == extra + Extras(base, cs)
    ensures forall j, d :: 0 <= j < |extra2| && d in cs[1..] ==> extra2[j].0 != CharOnlyKey(d)
  {
    var c, rest := cs[0], cs[1..];
    assert c in cs;
    LookupAppend(base, extra, CharOnlyKey(c));
    if Lookup(base, CharOnlyKey(c)).Some? {
      extra2 := extra;
      assert Extras(base, cs) == [] + Extras(base, rest);
      assert [] + Extras(base, rest) == Extras(base, rest);
    } else {
      var x := (CharOnlyKey(c), Readings(base, c)[0]);
      StepAppends(base, extra, c, x);
      extra2 := extra + [x];
      forall j, d | 0 <= j < |extra2| && d in rest
        ensures extra2[j].0 != CharOnlyKey(d)
      {
        if j == |extra| {
          assert d != c;
          CharOnlyKeyInjective(c, d);
        } else {
          assert d in cs;
        }
      }
      assert Extras(base, cs) == [x] + Extras(base, rest);
      SeqAssoc(extra, [x], Extras(base, rest));
    }
  }

  lemma StepAppends(base: Table, extra: Table, c: string, x: (string, string))
    requires Lookup(base, CharOnlyKey(c)).None? && Readings(base, c) != []
    requires Lookup(extra, CharOnlyKey(c)).None? && x == (CharOnlyKey(c), Readings(base, c)[0])
    ensures FallbackStep(base + extra, c) == base + (extra + [x])
  {
    var t, key := base + extra, CharOnlyKey(c);
    LookupAppend(base, extra, key);
    assert Find(t, key).None?;
    ReadingsAppend(base, extra, c);
    var rs := Readings(t, c);
    assert rs[0] == x.1;
    assert FallbackStep(t, c) == Put(t, key, rs[0]);
    assert t + [x] == base + (extra + [x]);
  }

  /** The appended key of a listed character holds that character's first reading. */
  lemma {:induction false} ExtrasLookup(base: Table, cs: seq<string>, c: string)
    requires c in cs && Lookup(base, CharOnlyKey(c)).None? && Readings(base, c) != []
    ensures Lookup(Extras(base, cs), CharOnlyKey(c)) == Some(Readings(base, c)[0])
    decreases |cs|
  {
    var d := cs[0];
    var head := if Lookup(base, CharOnlyKey(d)).None? && Readings(base, d) != []
      then [(CharOnlyKey(d), Readings(base, d)[0])] else [];
    assert Extras(base, cs) == head + Extras(base, cs[1..]);
    LookupAppend(head, Extras(base, cs[1..]), CharOnlyKey(c));
    if d == c {
      FindFirst(head, CharOnlyKey(c), 0);
    } else {
      CharOnlyKeyInjective(c, d);
      ExtrasLookup(base, cs[1..], c);
    }
  }

  lemma LoadedShape(rows: seq<Row>)
    ensures Loaded(rows) == Inserted(rows) + Extras(Inserted(rows), SeenChars(rows))
  {
    var base, cs := Inserted(rows), SeenChars(rows);
    forall c | c in cs
      ensures Lookup(base, CharOnlyKey(c)).Some? || Readings(base, c) != []
    {
      SeenCovered(rows, c);
      CoveredHasReading(base, c);
    }
    FallbackAppends(base, [], cs);
    assert base + [] == base;
  }

  /** The second pass never changes a key the rows produced, `c|*` keys included. */
  lemma LoadedKeepsRows(rows: seq<Row>, k: string)
    requires Lookup(Inserted(rows), k).Some?
    ensures Lookup(Loaded(rows), k) == Lookup(Inserted(rows), k)
  {
    LoadedShape(rows);
    LookupAppend(Inserted(rows), Extras(Inserted(rows), SeenChars(rows)), k);
  }

  /** After loading, every accepted character has a `char|*` key. */
  lemma LoadedHasCharOnlyKey(rows: seq<Row>, c: string)
    requires c in SeenChars(rows)
    ensures Lookup(Loaded(rows), CharOnlyKey(c)).Some?
  {
    var base := Inserted(rows);
    LoadedShape(rows);
    LookupAppend(base, Extras(base, SeenChars(rows)), CharOnlyKey(c));
    if Lookup(base, CharOnlyKey(c)).None? {
      SeenCovered(rows, c);
      CoveredHasReading(base, c);
      ExtrasLookup(base, SeenChars(rows), c);
    }
  }

  /** A `char|*` key the rows did not give takes the character's first reading in insertion order. */
  lemma LoadedFallbackValue(rows: seq<Row>, c: string)
    requires c in SeenChars(rows) && Lookup(Inserted(rows), CharOnlyKey(c)).None?
    ensures Readings(Inserted(rows), c) != []
    ensures Lookup(Loaded(rows), CharOnlyKey(c)) == Some(Readings(Inserted(rows), c)[0])
  {
    var base := Inserted(rows);
    SeenCovered(rows, c);
    CoveredHasReading(base, c);
    LoadedShape(rows);
    LookupAppend(base, Extras(base, SeenChars(rows)), CharOnlyKey(c));
    ExtrasLookup(base, SeenChars(rows), c);
  }

  // ---------------------------------------------------------------------------
  // Looking a word up
  // ---------------------------------------------------------------------------

  /** The reading `c|*` gives one character, or the "_" placeholder. */
  function CharReading(t: Table, c: char): string {
    Lookup(t, CharOnlyKey([c])).GetOr("_")
  }

  /** The `char|*` reading (or "_") of each character of `w`. */
  function CharReadings(w: string, t: Table): (r: seq<string>)
    ensures |r| == |w| && forall k :: 0 <= k < |w| ==> r[k] == CharReading(t, w[k])
  {
    seq(|w|, k requires 0 <= k < |w| => CharReading(t, w[k]))
  }

  /** What `find_hanviet_reading_with_multiple` returns for the `traditionalChinese` field. */
  function FindReading(traditional: string, t: Table): (r: Option<string>)
    ensures traditional == "" ==> r == None
  {
    if traditional == "" then None
    else
      var w := CleanWord(traditional, Latin1Spelling);
      if |w| == 1 && Readings(t, w) != [] then Some(Join(Dedupe(Readings(t, w)), "/"))
      else if Lookup(t, CharOnlyKey(w)).Some? then Lookup(t, CharOnlyKey(w))
      else Spelled(w, t)
  }

  /** The per-character spelling: the readings joined by spaces, unless every one is "_". */
  function Spelled(w: string, t: Table): Option<string>
  {
    var parts := CharReadings(w, t);
    if exists k :: 0 <= k < |parts| && parts[k] != "_" then Some(Join(parts, " ")) else None
  }

  /** `find_hanviet_reading_with_multiple(entry, hanviet_data)` on the entry's `traditionalChinese`. */
  method FindReadingWithMultiple(traditional: string, t: Table) returns (r: Option<string>)
    ensures r == FindReading(traditional, t)
  {
    if traditional == "" {
      return None;
    }
    var w := CleanWord(traditional, Latin1Spelling);
    if |w| == 1 {
      var all := AllReadings(w, t);
      if all != [] {
        return Some(Join(Dedupe(all), "/"));
      }
    }
    var whole := Lookup(t, CharOnlyKey(w));
    if whole.Some? {
      return whole;
    }
    r := SpellOut(w, t);
  }

  /** The character-by-character loop of `find_hanviet_reading_with_multiple`. */
  method SpellOut(w: string, t: Table) returns (r: Option<string>)
    ensures r == Spelled(w, t)
  {
    var parts: seq<string> := [];
    var hit := false;
    var i := 0;
    while i < |w|
      invariant 0 <= i <= |w| && |parts| == i
      invariant forall k :: 0 <= k < i ==> parts[k] == CharReading(t, w[k])
      invariant hit <==> exists k :: 0 <= k < i && parts[k] != "_"
    {
      var reading := Lookup(t, CharOnlyKey([w[i]]));
      if reading.Some? {
        parts := parts + [reading.value];
      } else {
        parts := parts + ["_"];
      }
      hit := hit || parts[i] != "_";
      i := i + 1;
    }
    assert parts == CharReadings(w, t);
    if hit {
      return Some(Join(parts, " "));
    }
    return None;
  }

  /**
   * A single character with readings gets each distinct reading once, in the order the table
   * first lists it, joined by "/".
   */
  lemma OneCharacterReadings(traditional: string, t: Table)
    requires traditional != "" && |CleanWord(traditional, Latin1Spelling)| == 1
    requires Readings(t, CleanWord(traditional, Latin1Spelling)) != []
    ensures var all := Readings(t, CleanWord(traditional, Latin1Spelling));
      var unique := Dedupe(all);
        FindReading(traditional, t) == Some(Join(unique, "/")) && NoDup(unique)
        && (forall v :: v in unique <==> v in all)
        && forall i, j :: 0 <= i < j < |unique| ==> IndexOf(all, unique[i]) < IndexOf(all, unique[j])
  {
    var all := Readings(t, CleanWord(traditional, Latin1Spelling));
    var unique := Dedupe(all);
    assert FindReading(traditional, t) == Some(Join(unique, "/"));
    forall i, j | 0 <= i < j < |unique|
      ensures IndexOf(all, unique[i]) < IndexOf(all, unique[j])
    {
      DedupeKeepsFirstOrder(all, i, j);
    }
  }

  /**
   * A longer word without a whole-word key is spelled character by character; the lookup fails
   * exactly when every character misses (or reads "_").
   */
  lemma SpelledOut(traditional: string, t: Table)
    requires traditional != ""
    requires var w := CleanWord(traditional, Latin1Spelling);
      |w| != 1 && Lookup(t, CharOnlyKey(w)).None?
    ensures var w := CleanWord(traditional, Latin1Spelling);
      FindReading(traditional, t).None? <==> forall k :: 0 <= k < |w| ==> CharReading(t, w[k]) == "_"
  {
    var w := CleanWord(traditional, Latin1Spelling);
    var parts := CharReadings(w, t);
    assert FindReading(traditional, t) == Spelled(w, t);
    if forall k :: 0 <= k < |w| ==> CharReading(t, w[k]) == "_" {
      assert !exists k :: 0 <= k < |parts| && parts[k] != "_";
    } else {
      var k :| 0 <= k < |w| && CharReading(t, w[k]) != "_";
      assert parts[k] != "_";
    }
  }

  /** Every character the rows gave a reading is found again in the loaded table. */
  lemma LoadedCharactersAreFound(rows: seq<Row>, c: string)
    requires c in SeenChars(rows) && CleanWord(c, Latin1Spelling) == c
    ensures FindReading(c, Loaded(rows)).Some?
  {
    LoadedHasCharOnlyKey(rows, c);
    SeenNonEmpty(rows, c);
  }

  lemma {:induction false} SeenNonEmpty(rows: seq<Row>, c: string)
    requires c in SeenChars(rows)
    ensures c != ""
  {
    var init := rows[..|rows| - 1];
    if c in SeenChars(init) {
      SeenNonEmpty(init, c);
    }
  }
}
