/**
 PAYOUT_MIN_INTERVAL_OVERRIDES: "<did>=<ms>,<did>=<ms>", with ':' also accepted before the number and
 white space ignored, parsed into 64-bit durations in nanoseconds.
 */
module IntervalOverrides {
  import opened Basics
  import opened Text

  const MILLISECOND := 1_000_000

  /** The largest number of milliseconds that is a Duration. */
  const MAX_MS := 9_223_372_036_854

  /* ------------------------------ library functions ------------------------------ */

  /** strings.Split(s, ",") */
  function Split(s: string): (r: seq<string>)
    ensures r != []
  {
    if s == [] then [[]]
    else
      var rest := Split(s[1..]);
      if s[0] == ',' then [[]] + rest else [[s[0]] + rest[0]] + rest[1..]
  }

  function JoinCommas(parts: seq<string>): string
    requires parts != []
  {
    if |parts| == 1 then parts[0] else parts[0] + [','] + JoinCommas(parts[1..])
  }

  /** Splitting cuts at every comma and loses nothing. */
  lemma {:induction false} SplitMeaning(s: string)
    ensures JoinCommas(Split(s)) == s
    ensures forall i :: 0 <= i < |Split(s)| ==> ',' !in Split(s)[i]
  {
    if s != [] {
      SplitMeaning(s[1..]);
      var rest := Split(s[1..]);
      if s[0] == ',' {
        assert Split(s) == [[]] + rest && Split(s)[1..] == rest;
      } else {
        assert Split(s)[1..] == rest[1..];
      }
    }
  }

  function SkipLeft(s: string, i: nat): (r: nat)
    requires i <= |s|
    ensures i <= r <= |s|
    decreases |s| - i
  {
    if i < |s| && IsSpace(s[i]) then SkipLeft(s, i + 1) else i
  }

  function SkipRight(s: string, from: nat, i: nat): (r: nat)
    requires from <= i <= |s|
    ensures from <= r <= i
    decreases i
  {
    if from < i && IsSpace(s[i - 1]) then SkipRight(s, from, i - 1) else i
  }

  /** strings.TrimSpace */
  function Trim(s: string): string {
    var from := SkipLeft(s, 0);
    s[from..SkipRight(s, from, |s|)]
  }

  predicate IsSeparator(c: char) { c == '=' || c == ':' }

  function LastSeparatorBelow(s: string, n: nat): (i: int)
    requires n <= |s|
    ensures -1 <= i < n
  {
    if n == 0 then -1 else if IsSeparator(s[n - 1]) then n - 1 else LastSeparatorBelow(s, n - 1)
  }

  /** strings.LastIndexAny(s, "=:") */
  function LastSeparator(s: string): (i: int)
    ensures -1 <= i < |s|
  {
    LastSeparatorBelow(s, |s|)
  }

  predicate Digits(s: string) {
    s != [] && forall i :: 0 <= i < |s| ==> IsDigit(s[i])
  }

  function NumberBelow(s: string, n: nat): (r: int)
    requires n <= |s| && forall i :: 0 <= i < |s| ==> IsDigit(s[i])
    ensures r >= 0
  {
    if n == 0 then 0 else NumberBelow(s, n - 1) * 10 + DigitValue(s[n - 1])
  }

  /** The number a string of digits writes. */
  function NumberOf(s: string): int
    requires forall i :: 0 <= i < |s| ==> IsDigit(s[i])
  {
    NumberBelow(s, |s|)
  }

  /** strconv.Atoi on a 64-bit platform */
  function Atoi(s: string): Option<int> {
    var signed := s != [] && (s[0] == '+' || s[0] == '-');
    var digits := if signed then s[1..] else s;
    if !Digits(digits) then None
    else
      var n := if signed && s[0] == '-' then -NumberOf(digits) else NumberOf(digits);
      if MIN_DURATION <= n <= MAX_DURATION then Some(n) else None
  }

  /* --------------------------------- the parser ---------------------------------- */

  /** time.Duration(ms) * time.Millisecond, in 64-bit arithmetic */
  function Nanoseconds(ms: int): int {
    Wrap64(ms * MILLISECOND)
  }

  datatype Item = Skip | Bad | Set(did: string, ms: int)

  function Fields(did: string, number: string): Item {
    var ms := Atoi(number);
    if ms.None? || ms.value < 0 then Bad else Set(did, ms.value)
  }

  /** One entry, already trimmed and not empty. */
  function ParseEntry(entry: string): Item {
    var sep := LastSeparator(entry);
    if sep <= 0 || sep == |entry| - 1 then Bad else Fields(Trim(entry[..sep]), Trim(entry[sep + 1..]))
  }

  function ItemOf(p: string): Item {
    if Trim(p) == [] then Skip else ParseEntry(Trim(p))
  }

  function Items(entries: seq<string>): (r: seq<Item>) {
    seq(|entries|, i requires 0 <= i < |entries| => ItemOf(entries[i]))
  }

  /** The settings in force after all items; None if one of them is malformed. */
  function Collect(items: seq<Item>, out: map<string, int>): Option<map<string, int>> {
    if items == [] then Some(out)
    else match items[0]
      case Skip => Collect(items[1..], out)
      case Bad => None
      case Set(did, ms) => Collect(items[1..], out[did := Nanoseconds(ms)])
  }

  function Parse(raw: string): Option<map<string, int>> {
    Collect(Items(Split(raw)), map[])
  }

  /** The parse of an entry whose last separator is known, in terms of its two sides. */
  lemma ParseEntrySides(entry: string, sep: int, left: string, right: string)
    requires LastSeparator(entry) == sep && 0 < sep < |entry| - 1 && left == entry[..sep] && right == entry[sep + 1..]
    ensures ParseEntry(entry) == Fields(Trim(left), Trim(right))
  {
  }

  method ReadSides(left: string, right: string) returns (item: Item)
    ensures item == Fields(Trim(left), Trim(right))
  {
    var did := Trim(left);
    var ms := Atoi(Trim(right));
    if ms.None? || ms.value < 0 {
      return Bad;
    }
    return Set(did, ms.value);
  }

  method ReadEntry(entry: string) returns (item: Item)
    ensures item == ParseEntry(entry)
  {
    var sep := LastSeparator(entry);
    if sep <= 0 || sep == |entry| - 1 {
      return Bad;
    }
    var left, right := entry[..sep], entry[sep + 1..];
    ParseEntrySides(entry, sep, left, right);
    item := ReadSides(left, right);
  }

  lemma CollectNext(items: seq<Item>, i: nat, out: map<string, int>)
    requires i < |items|
    ensures Collect(items[i..], out)
            == match items[i]
               case Skip => Collect(items[i + 1..], out)
               case Bad => None
               case Set(did, ms) => Collect(items[i + 1..], out[did := Nanoseconds(ms)])
  {
    assert items[i..][0] == items[i] && items[i..][1..] == items[i + 1..];
  }

  method ReadAll(entries: seq<string>) returns (r: Option<map<string, int>>)
    ensures r == Collect(Items(entries), map[])
  {
    var out, i := map[], 0;
    ghost var items := Items(entries);
    while i < |entries|
      invariant 0 <= i <= |entries| == |items|
      invariant Collect(items, map[]) == Collect(items[i..], out)
    {
      var item := Skip;
      if Trim(entries[i]) != [] {
        item := ReadEntry(Trim(entries[i]));
      }
      CollectNext(items, i, out);
      if item.Bad? {
        return None;
      }
      if item.Set? {
        out := out[item.did := Nanoseconds(item.ms)];
      }
      i := i + 1;
    }
    r := Some(out);
  }

  method ParseIntervalOverrides(raw: string) returns (r: Option<map<string, int>>)
    ensures r == Parse(raw)
  {
    var entries := Split(raw);
    r := ReadAll(entries);
  }

  /* ------------------------- what an entry means --------------------------------- */

  /** No space at either end. */
  predicate Tight(s: string) {
    s != [] && !IsSpace(s[0]) && !IsSpace(s[|s| - 1])
  }

  lemma {:induction false} SkipLeftIs(s: string, i: nat, r: nat)
    requires i <= r <= |s| && (r < |s| ==> !IsSpace(s[r])) && forall k :: i <= k < r ==> IsSpace(s[k])
    ensures SkipLeft(s, i) == r
    decreases r - i
  {
    if i < r {
      SkipLeftIs(s, i + 1, r);
    }
  }

  lemma {:induction false} SkipRightIs(s: string, from: nat, i: nat, r: nat)
    requires from <= r <= i <= |s| && (from < r ==> !IsSpace(s[r - 1])) && forall k :: r <= k < i ==> IsSpace(s[k])
    ensures SkipRight(s, from, i) == r
    decreases i
  {
    if r < i {
      SkipRightIs(s, from, i - 1, r);
    }
  }

  lemma {:induction false} SkipLeftStops(s: string, i: nat)
    requires i <= |s|
    ensures var r := SkipLeft(s, i); (r < |s| ==> !IsSpace(s[r])) && forall k :: i <= k < r ==> IsSpace(s[k])
    decreases |s| - i
  {
    if i < |s| && IsSpace(s[i]) {
      SkipLeftStops(s, i + 1);
    }
  }

  lemma {:induction false} SkipRightStops(s: string, from: nat, i: nat)
    requires from <= i <= |s|
    ensures var r := SkipRight(s, from, i);
            (from < r ==> !IsSpace(s[r - 1])) && forall k :: r <= k < i ==> IsSpace(s[k])
    decreases i
  {
    if from < i && IsSpace(s[i - 1]) {
      SkipRightStops(s, from, i - 1);
    }
  }

  lemma TrimIs(s: string, from: nat, to: nat)
    requires from < to <= |s| && !IsSpace(s[from]) && !IsSpace(s[to - 1])
    requires forall k :: 0 <= k < from || to <= k < |s| ==> IsSpace(s[k])
    ensures Trim(s) == s[from..to]
  {
    SkipLeftIs(s, 0, from);
    SkipRightIs(s, from, |s|, to);
  }

  /** Trimming cuts the blanks on both sides and nothing else. */
  lemma TrimParts(s: string) returns (a: nat, b: nat)
    ensures a <= b <= |s| && Trim(s) == s[a..b]
    ensures forall k :: 0 <= k < a || b <= k < |s| ==> IsSpace(s[k])
    ensures a < b ==> !IsSpace(s[a]) && !IsSpace(s[b - 1]) && Tight(Trim(s))
    ensures Trim(s) == [] <==> Blank(s)
  {
    a := SkipLeft(s, 0);
    b := SkipRight(s, a, |s|);
    SkipLeftStops(s, 0);
    SkipRightStops(s, a, |s|);
  }

  /** Blanks dropped from the left do not show. */
  lemma TrimDropLeft(s: string, a: nat)
    requires a <= |s| && forall k :: 0 <= k < a ==> IsSpace(s[k])
    ensures Trim(s[a..]) == Trim(s)
  {
    var from, to := TrimParts(s);
    if from < to {
      TrimIs(s[a..], from - a, to - a);
      assert s[a..][from - a..to - a] == s[from..to];
    } else {
      TrimBlank(s[a..]);
    }
  }

  lemma TrimDropRight(s: string, b: nat)
    requires b <= |s| && forall k :: b <= k < |s| ==> IsSpace(s[k])
    ensures Trim(s[..b]) == Trim(s)
  {
    var from, to := TrimParts(s);
    if from < to {
      TrimIs(s[..b], from, to);
      assert s[..b][from..to] == s[from..to];
    } else {
      TrimBlank(s[..b]);
    }
  }

  lemma TrimBlank(w: string)
    requires Blank(w)
    ensures Trim(w) == []
  {
    SkipLeftIs(w, 0, |w|);
  }

  lemma TrimDrops(w: string, x: string, v: string)
    requires Blank(w) && Blank(v) && Tight(x)
    ensures Trim(w + x + v) == x
  {
    var s := w + x + v;
    assert s[..|w| + |x|] == w + x;
    assert s[..|w| + |x|][|w|..] == x;
    TrimDropRight(s, |w| + |x|);
    TrimDropLeft(s[..|w| + |x|], |w|);
    TightIsTrimmed(x);
  }

  lemma TightIsTrimmed(x: string)
    requires Tight(x)
    ensures Trim(x) == x
  {
    TrimIs(x, 0, |x|);
    assert x[0..|x|] == x;
  }

  /** The number a text denotes: digits after an optional sign, within 64 bits, not below zero. */
  predicate DenotesNumber(t: string, ms: nat) {
    && ms <= MAX_DURATION
    && ((Digits(t) && NumberOf(t) == ms)
        || (t != [] && t[0] == '+' && Digits(t[1..]) && NumberOf(t[1..]) == ms)
        || (t != [] && t[0] == '-' && Digits(t[1..]) && NumberOf(t[1..]) == 0 == ms))
  }

  /** An entry sets did to ms: a name, the last separator, a number, blanks anywhere between. */
  ghost predicate Denotes(p: string, did: string, ms: nat) {
    exists i :: 0 <= i < |p| && SplitsAt(p, i, did, ms)
  }

  predicate SplitsAt(p: string, i: nat, did: string, ms: nat)
    requires i < |p|
  {
    && IsSeparator(p[i]) && (forall k :: i < k < |p| ==> !IsSeparator(p[k]))
    && Trim(p[..i]) == did != [] && DenotesNumber(Trim(p[i + 1..]), ms)
  }

  predicate Reads(t: string, n: int) {
    Atoi(t).Some? && Atoi(t).value == n
  }

  lemma AtoiMeaning(t: string, ms: nat)
    ensures DenotesNumber(t, ms) <==> Reads(t, ms)
  {
  }

  lemma {:induction false} LastSeparatorIs(s: string, n: nat, i: int)
    requires -1 <= i < n <= |s| && (i >= 0 ==> IsSeparator(s[i])) && forall k :: i < k < n ==> !IsSeparator(s[k])
    ensures LastSeparatorBelow(s, n) == i
  {
    if n - 1 > i {
      LastSeparatorIs(s, n - 1, i);
    }
  }

  lemma {:induction false} LastSeparatorMeaning(s: string, n: nat)
    requires n <= |s|
    ensures var i := LastSeparatorBelow(s, n);
            (i >= 0 ==> IsSeparator(s[i])) && forall k :: i < k < n ==> !IsSeparator(s[k])
  {
    if n > 0 && !IsSeparator(s[n - 1]) {
      LastSeparatorMeaning(s, n - 1);
    }
  }

  lemma CutLeft(p: string, a: nat, b: nat, i: nat)
    requires a <= i < b <= |p| && forall k :: 0 <= k < a ==> IsSpace(p[k])
    ensures Trim(p[a..b][..i - a]) == Trim(p[..i])
  {
    TrimDropLeft(p[..i], a);
    assert p[..i][a..] == p[a..b][..i - a];
  }

  lemma CutRight(p: string, a: nat, b: nat, i: nat)
    requires a <= i < b <= |p| && forall k :: b <= k < |p| ==> IsSpace(p[k])
    ensures Trim(p[a..b][i - a + 1..]) == Trim(p[i + 1..])
  {
    TrimDropRight(p[i + 1..], b - (i + 1));
    assert p[i + 1..][..b - (i + 1)] == p[a..b][i - a + 1..];
  }

  lemma LastInSlice(p: string, a: nat, b: nat, i: nat)
    requires a <= i < b <= |p| && IsSeparator(p[i]) && forall k :: i < k < |p| ==> !IsSeparator(p[k])
    ensures LastSeparator(p[a..b]) == i - a
  {
    LastSeparatorIs(p[a..b], b - a, i - a);
  }

  lemma CutSlice(p: string, a: nat, b: nat, i: nat, entry: string)
    requires a <= i < b <= |p| && entry == p[a..b] && IsSeparator(p[i])
    requires forall k :: 0 <= k < a || b <= k < |p| ==> IsSpace(p[k])
    requires forall k :: i < k < |p| ==> !IsSeparator(p[k])
    ensures LastSeparator(entry) == i - a
    ensures Trim(entry[..i - a]) == Trim(p[..i]) && Trim(entry[i - a + 1..]) == Trim(p[i + 1..])
  {
    LastInSlice(p, a, b, i);
    CutLeft(p, a, b, i);
    CutRight(p, a, b, i);
  }

  /** Cutting an entry at its last separator is the same before and after trimming it. */
  lemma CutTrimmed(p: string, i: nat) returns (j: nat)
    requires i < |p| && IsSeparator(p[i]) && forall k :: i < k < |p| ==> !IsSeparator(p[k])
    ensures j < |Trim(p)| && LastSeparator(Trim(p)) == j
    ensures Trim(Trim(p)[..j]) == Trim(p[..i]) && Trim(Trim(p)[j + 1..]) == Trim(p[i + 1..])
  {
    var a, b := TrimParts(p);
    assert a <= i < b;
    j := i - a;
    CutSlice(p, a, b, i, Trim(p));
  }

  lemma NotBlank(s: string)
    requires s != [] && !IsSpace(s[0])
    ensures Trim(s) != []
  {
    var _, _ := TrimParts(s);
  }

  lemma TrimEmpty()
    ensures Trim([]) == []
  {
  }

  lemma TrimmedHasText(s: string)
    requires Trim(s) != []
    ensures |s| > 0
  {
    TrimEmpty();
    assert |s| == 0 ==> s == [];
  }

  lemma ParsedAt(entry: string, j: nat, ms: nat)
    requires 0 < j < |entry| - 1 && LastSeparator(entry) == j
    requires Reads(Trim(entry[j + 1..]), ms)
    ensures ParseEntry(entry) == Set(Trim(entry[..j]), ms)
  {
  }

  lemma DenotesIsParsed(p: string, did: string, ms: nat)
    requires Denotes(p, did, ms)
    ensures ItemOf(p) == Set(did, ms)
  {
    var i :| 0 <= i < |p| && SplitsAt(p, i, did, ms);
    var j := CutTrimmed(p, i);
    AtoiMeaning(Trim(p[i + 1..]), ms);
    TrimmedHasText(Trim(p)[..j]);
    TrimmedHasText(Trim(p)[j + 1..]);
    ParsedAt(Trim(p), j, ms);
  }

  lemma ParsedShape(entry: string)
    requires ParseEntry(entry).Set?
    ensures var sep := LastSeparator(entry);
            && 0 < sep < |entry| - 1
            && ParseEntry(entry).did == Trim(entry[..sep])
            && Reads(Trim(entry[sep + 1..]), ParseEntry(entry).ms) && ParseEntry(entry).ms >= 0
  {
  }

  /** The last separator of the trimmed entry is the last one of the entry. */
  lemma LastInWhole(p: string) returns (i: nat)
    requires Trim(p) != [] && LastSeparator(Trim(p)) >= 0
    ensures i < |p| && IsSeparator(p[i]) && forall k :: i < k < |p| ==> !IsSeparator(p[k])
  {
    var a, b := TrimParts(p);
    var entry := Trim(p);
    i := a + LastSeparator(entry);
    LastSeparatorMeaning(entry, |entry|);
    assert p[i] == entry[i - a];
    forall k | i < k < |p| ensures !IsSeparator(p[k]) {
      if k < b {
        assert p[k] == entry[k - a];
      }
    }
  }

  lemma ParsedDenotes(p: string)
    requires ItemOf(p).Set?
    ensures Denotes(p, ItemOf(p).did, ItemOf(p).ms)
  {
    var entry, item := Trim(p), ItemOf(p);
    ParsedShape(entry);
    var i := LastInWhole(p);
    var j := CutTrimmed(p, i);
    AtoiMeaning(Trim(entry[j + 1..]), item.ms);
    var _, _ := TrimParts(p);
    NotBlank(entry[..j]);
    assert SplitsAt(p, i, item.did, item.ms);
  }

  /** The parser skips exactly the blank entries and stores exactly what an entry denotes. */
  /** Where an entry is cut, in plain characters: at its last '=' or ':'. */
  lemma SplitsAtIs(p: string, i: nat, did: string, ms: nat)
    requires i < |p|
    ensures SplitsAt(p, i, did, ms)
            <==> && (p[i] == '=' || p[i] == ':')
                 && (forall k :: i < k < |p| ==> p[k] != '=' && p[k] != ':')
                 && did != [] && Trim(p[..i]) == did && DenotesNumber(Trim(p[i + 1..]), ms)
  {
  }

  /** What an entry's text denotes as a number: digits, perhaps after one sign, within 64 bits and not negative. */
  lemma DenotesNumberIs(t: string, ms: nat)
    ensures DenotesNumber(t, ms) ==> ms <= 9_223_372_036_854_775_807
    ensures ms <= 9_223_372_036_854_775_807 ==>
              (DenotesNumber(t, ms)
               <==> || (AllDigits(t) && NumberOf(t) == ms)
                    || (t != [] && t[0] == '+' && AllDigits(t[1..]) && NumberOf(t[1..]) == ms)
                    || (t != [] && t[0] == '-' && AllDigits(t[1..]) && NumberOf(t[1..]) == 0 == ms))
  {
  }

  predicate AllDigits(t: string) {
    |t| > 0 && forall i :: 0 <= i < |t| ==> '0' <= t[i] <= '9'
  }

  lemma {:induction false} NumberOfPrefix(s: string, t: string, n: nat)
    requires Digits(s) && Digits(t) && n <= |s| && n <= |t| && s[..n] == t[..n]
    ensures NumberBelow(s, n) == NumberBelow(t, n)
  {
    if n > 0 {
      assert s[n - 1] == s[..n][n - 1] && t[n - 1] == t[..n][n - 1];
      assert s[..n - 1] == s[..n][..n - 1] && t[..n - 1] == t[..n][..n - 1];
      NumberOfPrefix(s, t, n - 1);
    }
  }

  /** Decimal notation. */
  lemma NumberOfIs(s: string, c: char)
    requires (forall i :: 0 <= i < |s| ==> '0' <= s[i] <= '9') && '0' <= c <= '9'
    ensures NumberOf([]) == 0
    ensures NumberOf(s + [c]) == 10 * NumberOf(s) + (c as int - '0' as int)
  {
    var t := s + [c];
    assert t[|s|] == c && t[..|s|] == s[..|s|];
    if s != [] {
      NumberOfPrefix(t, s, |s|);
    }
    assert NumberOf(t) == NumberBelow(t, |s|) * 10 + DigitValue(c);
  }

  /** Blanks off both ends, and nothing else. */
  lemma TrimMeaning(s: string) returns (before: string, after: string)
    ensures s == before + Trim(s) + after && Blank(before) && Blank(after)
    ensures Trim(s) != [] ==> !IsSpace(Trim(s)[0]) && !IsSpace(Trim(s)[|Trim(s)| - 1])
  {
    var a, b := TrimParts(s);
    before, after := s[..a], s[b..];
  }

  lemma EntryMeaning(p: string, did: string, ms: nat)
    ensures ItemOf(p) == Set(did, ms) <==> Denotes(p, did, ms)
    ensures ItemOf(p).Skip? <==> Blank(p)
  {
    if Denotes(p, did, ms) {
      DenotesIsParsed(p, did, ms);
    }
    if ItemOf(p).Set? {
      ParsedDenotes(p);
    }
    var _, _ := TrimParts(p);
  }

  ghost predicate Meaningful(p: string) {
    exists did, ms :: Denotes(p, did, ms)
  }

  lemma {:induction false} CollectSucceedsIff(items: seq<Item>, out: map<string, int>)
    ensures Collect(items, out).Some? <==> Bad !in items
    decreases |items|
  {
    if items != [] {
      CollectSucceedsIff(items[1..], if items[0].Set? then out[items[0].did := Nanoseconds(items[0].ms)] else out);
      assert items == [items[0]] + items[1..];
    }
  }

  /** Success means that no non-blank entry was dropped: all of them denote a setting. */
  lemma SucceedsIffAllMeaningful(raw: string)
    ensures Parse(raw).Some? <==> forall p :: p in Split(raw) ==> Blank(p) || Meaningful(p)
  {
    var entries := Split(raw);
    CollectSucceedsIff(Items(entries), map[]);
    forall p ensures ItemOf(p).Bad? <==> !Blank(p) && !Meaningful(p) {
      BadIff(p);
    }
    assert forall i :: 0 <= i < |entries| ==> Items(entries)[i] == ItemOf(entries[i]) && entries[i] in entries;
  }

  lemma BadIff(p: string)
    ensures ItemOf(p).Bad? <==> !Blank(p) && !Meaningful(p)
  {
    EntryMeaning(p, "", 0);
    if Meaningful(p) {
      var did, ms :| Denotes(p, did, ms);
      EntryMeaning(p, did, ms);
    }
    if ItemOf(p).Set? {
      EntryMeaning(p, ItemOf(p).did, ItemOf(p).ms);
    }
  }

  /** The value the last item for a name leaves, looking from the end. */
  function LastFor(items: seq<Item>, did: string): Option<int> {
    if items == [] then None
    else
      var last := items[|items| - 1];
      if last.Set? && last.did == did then Some(last.ms) else LastFor(items[..|items| - 1], did)
  }

  lemma {:induction false} LastForHead(items: seq<Item>, did: string)
    requires items != []
    ensures LastFor(items, did) == if LastFor(items[1..], did).Some? then LastFor(items[1..], did)
                                   else LastFor(items[..1], did)
    decreases |items|
  {
    if |items| > 1 {
      assert items[..|items| - 1][1..] == items[1..][..|items| - 2];
      assert items[..|items| - 1][..1] == items[..1];
      LastForHead(items[..|items| - 1], did);
    } else {
      assert items[..1] == items;
    }
  }

  /** The last entry for a name decides its value, whatever came before; other names are untouched. */
  lemma {:induction false} LastMentionWins(items: seq<Item>, out: map<string, int>, did: string)
    requires Collect(items, out).Some?
    ensures var m, last := Collect(items, out).value, LastFor(items, did);
            && (last.Some? ==> did in m && m[did] == Nanoseconds(last.value))
            && (last.None? ==> (did in m <==> did in out) && (did in m ==> m[did] == out[did]))
    decreases |items|
  {
    if items != [] {
      var head := items[0];
      LastForHead(items, did);
      assert LastFor([head], did) == if head.Set? && head.did == did then Some(head.ms) else None;
      assert items[..1] == [head];
      LastMentionWins(items[1..], if head.Set? then out[head.did := Nanoseconds(head.ms)] else out, did);
    }
  }

  /* -------------------------------- round trip ----------------------------------- */

  /** An entry as an operator may write it; Gap is an empty one. */
  datatype Piece =
    | Gap(blank: string)
    | Entry(before: string, did: string, mid: string, sep: char, after: string, ms: nat, end: string)

  predicate ValidDid(did: string) {
    Tight(did) && ',' !in did
  }

  predicate WellWritten(p: Piece) {
    match p
    case Gap(b) => Blank(b)
    case Entry(b, did, m, sep, a, ms, e) =>
      Blank(b) && Blank(m) && Blank(a) && Blank(e) && ValidDid(did) && IsSeparator(sep) && ms <= MAX_DURATION
  }

  predicate ValidPiece(p: Piece) {
    WellWritten(p) && (p.Entry? ==> p.ms <= MAX_MS)
  }

  function Print(p: Piece): string {
    match p
    case Gap(b) => b
    case Entry(b, did, m, sep, a, ms, e) => (b + did + m) + [sep] + (a + Decimal(ms) + e)
  }

  function Render(pieces: seq<Piece>): string {
    if pieces == [] then []
    else if |pieces| == 1 then Print(pieces[0])
    else Print(pieces[0]) + [','] + Render(pieces[1..])
  }

  function Texts(pieces: seq<Piece>): (r: seq<string>)
  {
    seq(|pieces|, i requires 0 <= i < |pieces| => Print(pieces[i]))
  }

  function Wanted(p: Piece): Item {
    if p.Gap? then Skip else Set(p.did, p.ms)
  }

  /** The durations asked for, in exact arithmetic, later pieces overriding earlier ones. */
  function Asked(pieces: seq<Piece>, out: map<string, int>): map<string, int> {
    if pieces == [] then out
    else if pieces[0].Gap? then Asked(pieces[1..], out)
    else Asked(pieces[1..], out[pieces[0].did := pieces[0].ms * MILLISECOND])
  }

  lemma {:induction false} SplitAtComma(a: string, rest: string)
    requires ',' !in a
    ensures Split(a + [','] + rest) == [a] + Split(rest)
    decreases |a|
  {
    var s := a + [','] + rest;
    if a == [] {
      assert s[1..] == rest;
    } else {
      assert s[0] == a[0] && s[1..] == a[1..] + [','] + rest;
      SplitAtComma(a[1..], rest);
      assert [a[0]] + a[1..] == a;
    }
  }

  lemma {:induction false} SplitPlain(a: string)
    requires ',' !in a
    ensures Split(a) == [a]
    decreases |a|
  {
    if a != [] {
      SplitPlain(a[1..]);
      assert [a[0]] + a[1..] == a;
    }
  }

  lemma NoCommaIn(p: Piece)
    requires WellWritten(p)
    ensures ',' !in Print(p)
  {
  }

  lemma TextsNext(pieces: seq<Piece>)
    requires pieces != []
    ensures Texts(pieces) == [Print(pieces[0])] + Texts(pieces[1..])
  {
  }

  lemma {:induction false} SplitJoined(texts: seq<string>)
    requires texts != [] && forall i :: 0 <= i < |texts| ==> ',' !in texts[i]
    ensures Split(JoinCommas(texts)) == texts
    decreases |texts|
  {
    if |texts| == 1 {
      SplitPlain(texts[0]);
    } else {
      SplitJoined(texts[1..]);
      SplitAtComma(texts[0], JoinCommas(texts[1..]));
    }
  }

  lemma {:induction false} RenderJoins(pieces: seq<Piece>)
    requires pieces != []
    ensures Texts(pieces) != [] && Render(pieces) == JoinCommas(Texts(pieces))
    decreases |pieces|
  {
    if |pieces| > 1 {
      RenderJoins(pieces[1..]);
      TextsNext(pieces);
      assert Texts(pieces)[1..] == Texts(pieces[1..]);
    }
  }

  lemma SplitRendered(pieces: seq<Piece>)
    requires pieces != [] && forall i :: 0 <= i < |pieces| ==> ValidPiece(pieces[i])
    ensures Split(Render(pieces)) == Texts(pieces)
  {
    RenderJoins(pieces);
    forall i | 0 <= i < |pieces| ensures ',' !in Texts(pieces)[i] {
      NoCommaIn(pieces[i]);
    }
    SplitJoined(Texts(pieces));
  }

  lemma {:induction false} DecimalRoundTrip(n: nat)
    ensures Digits(Decimal(n)) && NumberOf(Decimal(n)) == n
  {
    var s := Decimal(n);
    if n < 10 {
      assert NumberBelow(s, 0) == 0;
    } else {
      var t := Decimal(n / 10);
      DecimalRoundTrip(n / 10);
      assert s[..|t|] == t[..|t|];
      NumberOfPrefix(s, t, |t|);
    }
  }

  lemma TextDenotes(left: string, sep: char, right: string, did: string, ms: nat)
    requires IsSeparator(sep) && forall k :: 0 <= k < |right| ==> !IsSeparator(right[k])
    requires Trim(left) == did != [] && DenotesNumber(Trim(right), ms)
    ensures Denotes(left + [sep] + right, did, ms)
  {
    var s, i := left + [sep] + right, |left|;
    assert s[..i] == left && s[i + 1..] == right && s[i] == sep;
    forall k | i < k < |s| ensures !IsSeparator(s[k]) {
      assert s[k] == right[k - i - 1];
    }
    assert SplitsAt(s, i, did, ms);
  }

  lemma NoSeparators(before: string, digits: string, end: string, k: nat)
    requires Blank(before) && Blank(end) && Digits(digits) && k < |before + digits + end|
    ensures !IsSeparator((before + digits + end)[k])
  {
    var s := before + digits + end;
    if k < |before| {
      assert s[k] == before[k];
    } else if k < |before| + |digits| {
      assert s[k] == digits[k - |before|];
    } else {
      assert s[k] == end[k - |before| - |digits|];
    }
  }

  lemma NumberPart(before: string, ms: nat, end: string)
    requires Blank(before) && Blank(end) && ms <= MAX_DURATION
    ensures var right := before + Decimal(ms) + end;
            DenotesNumber(Trim(right), ms) && forall k :: 0 <= k < |right| ==> !IsSeparator(right[k])
  {
    DecimalRoundTrip(ms);
    TrimDrops(before, Decimal(ms), end);
    forall k: nat | k < |before + Decimal(ms) + end| ensures !IsSeparator((before + Decimal(ms) + end)[k]) {
      NoSeparators(before, Decimal(ms), end, k);
    }
  }

  lemma PrintDenotes(p: Piece)
    requires WellWritten(p) && p.Entry?
    ensures Denotes(Print(p), p.did, p.ms)
  {
    TrimDrops(p.before, p.did, p.mid);
    NumberPart(p.after, p.ms, p.end);
    TextDenotes(p.before + p.did + p.mid, p.sep, p.after + Decimal(p.ms) + p.end, p.did, p.ms);
  }

  lemma PrintedItem(p: Piece)
    requires WellWritten(p)
    ensures ItemOf(Print(p)) == Wanted(p)
  {
    if p.Entry? {
      PrintDenotes(p);
      EntryMeaning(Print(p), p.did, p.ms);
    } else {
      EntryMeaning(Print(p), "", 0);
    }
  }

  lemma {:induction false} CollectAsked(items: seq<Item>, pieces: seq<Piece>, out: map<string, int>)
    requires |items| == |pieces|
    requires forall i :: 0 <= i < |pieces| ==> ValidPiece(pieces[i]) && items[i] == Wanted(pieces[i])
    ensures Collect(items, out) == Some(Asked(pieces, out))
    decreases |pieces|
  {
    if pieces != [] {
      var p := pieces[0];
      if p.Entry? {
        ExactIff(p.ms);
        CollectAsked(items[1..], pieces[1..], out[p.did := p.ms * MILLISECOND]);
      } else {
        CollectAsked(items[1..], pieces[1..], out);
      }
    }
  }

  /**
   Whatever blanks, empty entries, ':' separators and repetitions an operator writes, parsing gives
   exactly the durations asked for, the last mention of each name counting.
   */
  lemma RoundTrip(pieces: seq<Piece>)
    requires forall i :: 0 <= i < |pieces| ==> ValidPiece(pieces[i])
    ensures Parse(Render(pieces)) == Some(Asked(pieces, map[]))
  {
    if pieces == [] {
      NothingWritten();
    } else {
      SplitRendered(pieces);
      PrintedItems(pieces);
      CollectAsked(Items(Texts(pieces)), pieces, map[]);
    }
  }

  lemma NothingWritten()
    ensures Parse([]) == Some(map[])
  {
    TrimEmpty();
    assert Items([[]]) == [Skip];
    assert [Skip][1..] == [];
  }

  lemma PrintedItems(pieces: seq<Piece>)
    requires forall i :: 0 <= i < |pieces| ==> ValidPiece(pieces[i])
    ensures var items := Items(Texts(pieces));
            |items| == |pieces| && forall i :: 0 <= i < |pieces| ==> items[i] == Wanted(pieces[i])
  {
    forall i | 0 <= i < |pieces| ensures Items(Texts(pieces))[i] == Wanted(pieces[i]) {
      PrintedItem(pieces[i]);
    }
  }

  /** A map printed plainly, its keys in any order. */
  function Plain(m: map<string, nat>, order: seq<string>): seq<Piece>
    requires forall i :: 0 <= i < |order| ==> order[i] in m
  {
    seq(|order|, i requires 0 <= i < |order| => Entry([], order[i], [], '=', [], m[order[i]], []))
  }

  lemma {:induction false} PlainAsks(m: map<string, nat>, order: seq<string>, out: map<string, int>)
    requires forall i :: 0 <= i < |order| ==> order[i] in m
    ensures var r := Asked(Plain(m, order), out);
            && (forall did :: did in r <==> did in out || did in order)
            && forall did :: did in r ==> r[did] == if did in order then m[did] * MILLISECOND else out[did]
    decreases |order|
  {
    if order != [] {
      assert Plain(m, order)[1..] == Plain(m, order[1..]);
      PlainAsks(m, order[1..], out[order[0] := m[order[0]] * MILLISECOND]);
      assert order == [order[0]] + order[1..];
    }
  }

  /** What an operator may write: blanks around a name, one of two separators, and a number, or only blanks. */
  lemma ValidPieceIs(p: Piece)
    ensures p.Gap? ==> (ValidPiece(p) <==> Blank(p.blank))
    ensures p.Entry? ==>
              (ValidPiece(p) <==> && Blank(p.before) && Blank(p.mid) && Blank(p.after) && Blank(p.end)
                                  && p.did != [] && !IsSpace(p.did[0]) && !IsSpace(p.did[|p.did| - 1]) && ',' !in p.did
                                  && (p.sep == '=' || p.sep == ':') && p.ms <= 9_223_372_036_854)
    ensures p.Gap? ==> Print(p) == p.blank
    ensures p.Entry? ==> Print(p) == p.before + p.did + p.mid + [p.sep] + (p.after + Decimal(p.ms) + p.end)
  {
  }

  /** What is asked for: the last mention of each name, in nanoseconds. */
  lemma {:induction false} AskedLast(pieces: seq<Piece>, last: Piece, out: map<string, int>)
    ensures Asked([], out) == out
    ensures Asked(pieces + [last], out)
            == if last.Gap? then Asked(pieces, out) else Asked(pieces, out)[last.did := last.ms * 1_000_000]
    decreases |pieces|
  {
    var all := pieces + [last];
    if pieces == [] {
      assert all[1..] == [];
    } else {
      assert all[0] == pieces[0] && all[1..] == pieces[1..] + [last];
      AskedLast(pieces[1..], last,
                if pieces[0].Gap? then out else out[pieces[0].did := pieces[0].ms * MILLISECOND]);
    }
  }

  /** The pieces, with commas between them. */
  lemma RenderIs(p: Piece, pieces: seq<Piece>)
    ensures Render([]) == [] && Render([p]) == Print(p)
    ensures pieces != [] ==> Render([p] + pieces) == Print(p) + "," + Render(pieces)
  {
    assert ([p] + pieces)[1..] == pieces;
  }

  /** Any map of names to milliseconds survives printing, in whatever order, and parsing. */
  lemma PrintedMapParsesBack(m: map<string, nat>, order: seq<string>)
    requires forall did :: did in m <==> did in order
    requires forall did :: did in m ==> m[did] <= 9_223_372_036_854
    requires forall did :: did in m ==>
               did != [] && !IsSpace(did[0]) && !IsSpace(did[|did| - 1]) && ',' !in did
    ensures var r := Parse(Render(Plain(m, order)));
            r.Some? && r.value.Keys == m.Keys && forall did :: did in m ==> r.value[did] == m[did] * MILLISECOND
  {
    var pieces := Plain(m, order);
    forall i | 0 <= i < |pieces| ensures ValidPiece(pieces[i]) {
      assert order[i] in m;
    }
    RoundTrip(pieces);
    PlainAsks(m, order, map[]);
  }

  /* ------------------------- where the arithmetic wraps -------------------------- */

  lemma ExactIff(ms: nat)
    requires ms <= MAX_DURATION
    ensures Nanoseconds(ms) == ms * MILLISECOND <==> ms <= MAX_MS
  {
  }

  lemma CollectOne(entries: seq<string>, did: string, ms: nat)
    requires |entries| == 1 && ItemOf(entries[0]) == Set(did, ms)
    ensures Collect(Items(entries), map[]) == Some(map[did := Nanoseconds(ms)])
  {
    var items := Items(entries);
    assert items == [Set(did, ms)] && items[1..] == [];
    assert map[][did := Nanoseconds(ms)] == map[did := Nanoseconds(ms)];
  }

  /** Every 64-bit number of milliseconds is accepted; the stored duration is right exactly up to MAX_MS. */
  lemma AcceptedButExactOnlyUpToMax(did: string, ms: nat)
    requires ValidDid(did) && ms <= MAX_DURATION
    ensures Parse(did + "=" + Decimal(ms)) == Some(map[did := Nanoseconds(ms)])
    ensures Nanoseconds(ms) == ms * MILLISECOND <==> ms <= MAX_MS
  {
    ExactIff(ms);
    PlainText(did, ms);
    SplitPlain(did + "=" + Decimal(ms));
    CollectOne(Split(did + "=" + Decimal(ms)), did, ms);
  }

  lemma PlainText(did: string, ms: nat)
    requires ValidDid(did) && ms <= MAX_DURATION
    ensures ',' !in did + "=" + Decimal(ms) && ItemOf(did + "=" + Decimal(ms)) == Set(did, ms)
  {
    TightIsTrimmed(did);
    DecimalRoundTrip(ms);
    TightIsTrimmed(Decimal(ms));
    TextDenotes(did, '=', Decimal(ms), did, ms);
    DenotesIsParsed(did + "=" + Decimal(ms), did, ms);
  }

  lemma FirstWrap()
    ensures Nanoseconds(MAX_MS + 1) == -9_223_372_036_854_551_616
  {
  }
}
