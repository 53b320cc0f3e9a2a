/**
 The normal form under which failures are grouped: 64-digit hex ids, bafybmi DIDs and local node
 addresses become '#', and the text is cut after 200 characters.
 */
module FailureReason {
  import opened Text

  predicate Alnum(c: char) { IsDigit(c) || 'a' <= c <= 'z' }

  const DID_PREFIX := "bafybmi"
  const NODE_PREFIX := "127.0.0.1:"
  const CUT := 200

  /* --------------------- the language of the pattern ----------------------------- */

  predicate HexId(x: string) {
    |x| == 64 && forall i :: 0 <= i < 64 ==> IsHexDigit(x[i])
  }

  predicate DidId(x: string) {
    |x| > 7 && x[..7] == DID_PREFIX && forall i :: 7 <= i < |x| ==> Alnum(x[i])
  }

  predicate NodeId(x: string) {
    |x| > 10 && x[..10] == NODE_PREFIX && forall i :: 10 <= i < |x| ==> IsDigit(x[i])
  }

  predicate IsId(x: string) {
    HexId(x) || DidId(x) || NodeId(x)
  }

  /* ------------------------------ the scanner ------------------------------------ */

  /** Length of the longest run of characters of a class at the start of s. */
  function RunLength(s: string, digitsOnly: bool): (n: nat)
    ensures n <= |s|
    ensures forall i :: 0 <= i < n ==> if digitsOnly then IsDigit(s[i]) else Alnum(s[i])
    ensures n < |s| ==> !(if digitsOnly then IsDigit(s[n]) else Alnum(s[n]))
  {
    if s == [] || !(if digitsOnly then IsDigit(s[0]) else Alnum(s[0])) then 0 else 1 + RunLength(s[1..], digitsOnly)
  }

  /** Length of the match at the start of s; 0 if there is none. */
  function MatchLength(s: string): (n: nat)
    ensures n <= |s|
  {
    if |s| >= 64 && HexId(s[..64]) then 64
    else if |s| > 7 && DidId(s[..8]) then 7 + RunLength(s[7..], false)
    else if |s| > 10 && NodeId(s[..11]) then 10 + RunLength(s[10..], true)
    else 0
  }

  /** regexp_replace(s, pattern, '#', 'g') */
  function Normalise(s: string): string
    decreases |s|
  {
    if s == [] then []
    else if MatchLength(s) > 0 then "#" + Normalise(s[MatchLength(s)..])
    else [s[0]] + Normalise(s[1..])
  }

  function Left(s: string, n: nat): (r: string) {
    if |s| <= n then s else s[..n]
  }

  function Reason(s: string): string {
    Left(Normalise(s), CUT)
  }

  /** The first 200 characters. */
  lemma ReasonIs(s: string)
    ensures Reason(s) <= Normalise(s) && |Reason(s)| == if |Normalise(s)| <= 200 then |Normalise(s)| else 200
  {
  }

  lemma PrefixIs(x: string, prefix: string, n: nat)
    requires |prefix| == n
    ensures |x| > n && x[..n] == prefix <==> prefix < x
  {
    if prefix < x {
      assert x[..n] == prefix;
    }
  }

  /** [0-9a-f]{64}|bafybmi[0-9a-z]+|127\.0\.0\.1:[0-9]+ */
  lemma IdsAre(x: string)
    ensures IsId(x) <==>
            || (|x| == 64 && forall i :: 0 <= i < 64 ==> '0' <= x[i] <= '9' || 'a' <= x[i] <= 'f')
            || ("bafybmi" < x && forall i :: 7 <= i < |x| ==> '0' <= x[i] <= '9' || 'a' <= x[i] <= 'z')
            || ("127.0.0.1:" < x && forall i :: 10 <= i < |x| ==> '0' <= x[i] <= '9')
  {
    PrefixIs(x, DID_PREFIX, 7);
    PrefixIs(x, NODE_PREFIX, 10);
  }

  /* ------------------- the scanner finds the longest match ------------------------ */

  lemma RunIsLongest(s: string, digitsOnly: bool, k: nat)
    requires k <= |s| && forall i :: 0 <= i < k ==> if digitsOnly then IsDigit(s[i]) else Alnum(s[i])
    ensures k <= RunLength(s, digitsOnly)
  {
  }

  /** The three alternatives exclude each other, so a match at the start is unambiguous. */
  lemma KindsExclude(x: string, y: string)
    requires IsId(x) && IsId(y) && (x <= y || y <= x)
    ensures (HexId(x) <==> HexId(y)) && (DidId(x) <==> DidId(y)) && (NodeId(x) <==> NodeId(y))
  {
    if DidId(x) { assert x[3] == x[..7][3] == 'y'; }
    if DidId(y) { assert y[3] == y[..7][3] == 'y'; }
    if NodeId(x) { assert x[3] == x[..10][3] == '.'; }
    if NodeId(y) { assert y[3] == y[..10][3] == '.'; }
  }

  /** Leftmost-longest: the match at the start of s is the longest prefix in the pattern's language. */
  lemma MatchIsLongest(s: string, k: nat)
    requires k <= |s|
    ensures MatchLength(s) > 0 ==> IsId(s[..MatchLength(s)])
    ensures IsId(s[..k]) ==> k <= MatchLength(s)
  {
    var n := MatchLength(s);
    if n > 0 {
      MatchIsId(s);
    }
    if IsId(s[..k]) {
      PrefixMatches(s, k);
      MatchIsId(s);
      KindsExclude(s[..k], s[..n]);
      if DidId(s[..k]) {
        assert forall i :: 0 <= i < k - 7 ==> s[7..][i] == s[..k][7 + i];
        RunIsLongest(s[7..], false, k - 7);
      } else if NodeId(s[..k]) {
        assert forall i :: 0 <= i < k - 10 ==> s[10..][i] == s[..k][10 + i];
        RunIsLongest(s[10..], true, k - 10);
      }
    }
  }

  lemma MatchIsId(s: string)
    requires MatchLength(s) > 0
    ensures IsId(s[..MatchLength(s)])
  {
    var n := MatchLength(s);
    if |s| >= 64 && HexId(s[..64]) {
    } else if |s| > 7 && DidId(s[..8]) {
      assert s[7..][0] == s[..8][7];
      assert n > 7 && s[..n][..7] == s[..8][..7];
      forall i | 7 <= i < n ensures Alnum(s[..n][i]) {
        assert s[..n][i] == s[7..][i - 7];
      }
      assert DidId(s[..n]);
    } else {
      assert s[10..][0] == s[..11][10];
      assert n > 10 && s[..n][..10] == s[..11][..10];
      forall i | 10 <= i < n ensures IsDigit(s[..n][i]) {
        assert s[..n][i] == s[10..][i - 10];
      }
      assert NodeId(s[..n]);
    }
  }

  lemma PrefixMatches(s: string, k: nat)
    requires k <= |s| && IsId(s[..k])
    ensures MatchLength(s) > 0
  {
    var x := s[..k];
    if DidId(x) {
      assert s[..8][..7] == x[..7] && s[..8][7] == x[7];
      assert DidId(s[..8]);
    } else if NodeId(x) {
      assert s[..11][..10] == x[..10] && s[..11][10] == x[10];
      assert NodeId(s[..11]);
    }
  }

  /* ------------------------------- idempotence ----------------------------------- */

  /** No part of s is an id, wherever it starts and ends. */
  ghost predicate Clean(s: string) {
    forall i, j :: 0 <= i <= j <= |s| ==> !IsId(s[i..j])
  }

  lemma NoHashInIds(x: string, i: nat)
    requires IsId(x) && i < |x|
    ensures x[i] != '#'
  {
    if DidId(x) && i < 7 {
      assert x[i] == x[..7][i];
    } else if NodeId(x) && i < 10 {
      assert x[i] == x[..10][i];
    }
  }

  /** Up to its first '#', the output is a copy of the input. */
  lemma {:induction false} CopiesUpToHash(s: string, k: nat)
    requires k <= |Normalise(s)| && forall i :: 0 <= i < k ==> Normalise(s)[i] != '#'
    ensures k <= |s| && Normalise(s)[..k] == s[..k]
    decreases |s|
  {
    if k > 0 {
      assert Normalise(s)[0] != '#' && MatchLength(s) == 0;
      assert Normalise(s)[1..] == Normalise(s[1..]);
      forall i | 0 <= i < k - 1 ensures Normalise(s[1..])[i] != '#' {
        assert Normalise(s)[i + 1] == Normalise(s)[1..][i];
      }
      CopiesUpToHash(s[1..], k - 1);
      assert Normalise(s)[..k] == [s[0]] + Normalise(s[1..])[..k - 1];
      assert s[..k] == [s[0]] + s[1..][..k - 1];
    }
  }

  /** No id starts at the first character of the output. */
  lemma OutputStartsClean(s: string, j: nat)
    requires j <= |Normalise(s)|
    ensures !IsId(Normalise(s)[..j])
  {
    var x := Normalise(s)[..j];
    if IsId(x) {
      forall i | 0 <= i < j ensures Normalise(s)[i] != '#' {
        NoHashInIds(x, i);
      }
      CopiesUpToHash(s, j);
      PrefixMatches(s, j);
      NoHashInIds(x, 0);
      assert false;
    }
  }

  lemma {:induction false} OutputIsClean(s: string)
    ensures Clean(Normalise(s))
    decreases |s|
  {
    var out := Normalise(s);
    forall i, j | 0 <= i <= j <= |out| ensures !IsId(out[i..j]) {
      if i == 0 {
        OutputStartsClean(s, j);
        assert out[0..j] == out[..j];
      } else {
        var rest := if MatchLength(s) > 0 then s[MatchLength(s)..] else s[1..];
        OutputIsClean(rest);
        assert out[1..] == Normalise(rest);
        assert out[i..j] == out[1..][i - 1..j - 1];
      }
    }
  }

  lemma CleanHasNoMatch(s: string)
    requires Clean(s)
    ensures MatchLength(s) == 0
  {
    assert s[0..MatchLength(s)] == s[..MatchLength(s)];
    if MatchLength(s) > 0 {
      MatchIsId(s);
    }
  }

  lemma {:induction false} CleanIsUnchanged(s: string)
    requires Clean(s)
    ensures Normalise(s) == s
    decreases |s|
  {
    if s != [] {
      CleanHasNoMatch(s);
      forall i, j | 0 <= i <= j <= |s[1..]| ensures !IsId(s[1..][i..j]) {
        assert s[1..][i..j] == s[i + 1..j + 1];
      }
      CleanIsUnchanged(s[1..]);
    }
  }

  /** The text of a reason holds no id, and normalising it again changes nothing, cut included. */
  lemma ReasonIsNormal(s: string)
    ensures Clean(Reason(s)) && |Reason(s)| <= CUT
    ensures Reason(Reason(s)) == Reason(s)
  {
    OutputIsClean(s);
    var out, cut := Normalise(s), Reason(s);
    forall i, j | 0 <= i <= j <= |cut| ensures !IsId(cut[i..j]) {
      assert cut[i..j] == out[i..j];
    }
    CleanIsUnchanged(cut);
  }

  /* ------------------------------- delimited ids --------------------------------- */

  /** A character that occurs in no id. */
  predicate Delimiter(d: char) {
    !Alnum(d) && d != '.' && d != ':'
  }

  lemma IdHasNoDelimiter(x: string, i: nat)
    requires IsId(x) && i < |x|
    ensures !Delimiter(x[i])
  {
    if DidId(x) && i < 7 {
      assert x[i] == x[..7][i];
    } else if NodeId(x) && i < 10 {
      assert x[i] == x[..10][i];
    }
  }

  /** A match does not look past a delimiter. */
  lemma MatchStopsAtDelimiter(a: string, d: char, b: string)
    requires Delimiter(d)
    ensures MatchLength(a + [d] + b) == MatchLength(a)
  {
    var s := a + [d] + b;
    var m, n := MatchLength(s), MatchLength(a);
    if m > 0 {
      MatchIsId(s);
      if m > |a| {
        IdHasNoDelimiter(s[..m], |a|);
      }
      assert s[..m] == a[..m];
      MatchIsLongest(a, m);
    }
    if n > 0 {
      MatchIsId(a);
      assert s[..n] == a[..n];
      MatchIsLongest(s, n);
    }
  }

  /** Normalising distributes over any character that no id contains. */
  lemma {:induction false} Distributes(a: string, d: char, b: string)
    requires Delimiter(d)
    ensures Normalise(a + [d] + b) == Normalise(a) + [d] + Normalise(b)
    decreases |a|
  {
    var s := a + [d] + b;
    MatchStopsAtDelimiter(a, d, b);
    if a == [] {
      assert s == [d] + b && s[1..] == b;
      assert Normalise(s) == [d] + Normalise(b);
    } else {
      var n := if MatchLength(a) > 0 then MatchLength(a) else 1;
      assert s[n..] == a[n..] + [d] + b;
      Distributes(a[n..], d, b);
    }
  }

  lemma IdBecomesHash(x: string)
    requires IsId(x)
    ensures Normalise(x) == "#"
  {
    assert x[..|x|] == x;
    MatchIsLongest(x, |x|);
    assert x[|x|..] == [];
    assert Normalise(x) == "#" + Normalise([]);
  }

  /** pieces[0] d[0] pieces[1] d[1] ... */
  function Join(pieces: seq<string>, d: seq<char>): string
    requires |d| + 1 == |pieces|
  {
    if d == [] then pieces[0] else pieces[0] + [d[0]] + Join(pieces[1..], d[1..])
  }

  lemma JoinIs(pieces: seq<string>, d: seq<char>, last: string, c: char)
    requires |d| + 1 == |pieces|
    ensures Join([last], []) == last
    ensures Join([last] + pieces, [c] + d) == last + [c] + Join(pieces, d)
  {
    assert ([last] + pieces)[1..] == pieces && ([c] + d)[1..] == d;
  }

  /** No id contains any of these. */
  lemma DelimitersAre(d: char)
    ensures Delimiter(d) <==> !('0' <= d <= '9' || 'a' <= d <= 'z' || d == '.' || d == ':')
  {
  }

  /** Between delimiters every id becomes '#', and what holds no id stays as it is. */
  lemma {:induction false} IdsBecomeHashes(p: seq<string>, q: seq<string>, d: seq<char>)
    requires |d| + 1 == |p| == |q| && forall i :: 0 <= i < |d| ==> Delimiter(d[i])
    requires forall i :: 0 <= i < |p| ==> if IsId(p[i]) then q[i] == "#" else q[i] == p[i] && Clean(p[i])
    ensures Normalise(Join(p, d)) == Join(q, d)
    decreases |d|
  {
    if IsId(p[0]) {
      IdBecomesHash(p[0]);
    } else {
      CleanIsUnchanged(p[0]);
    }
    if d != [] {
      IdsBecomeHashes(p[1..], q[1..], d[1..]);
      Distributes(p[0], d[0], Join(p[1..], d[1..]));
    }
  }

  /** Texts that differ only in ids between delimiters, of whatever kind, are grouped together. */
  lemma {:induction false} SameReasonUpToIds(p: seq<string>, q: seq<string>, d: seq<char>)
    requires |d| + 1 == |p| == |q| && forall i :: 0 <= i < |d| ==> Delimiter(d[i])
    requires forall i :: 0 <= i < |p| ==> p[i] == q[i] || (IsId(p[i]) && IsId(q[i]))
    ensures Normalise(Join(p, d)) == Normalise(Join(q, d)) && Reason(Join(p, d)) == Reason(Join(q, d))
    decreases |d|
  {
    if p[0] != q[0] {
      IdBecomesHash(p[0]);
      IdBecomesHash(q[0]);
    }
    if d != [] {
      SameReasonUpToIds(p[1..], q[1..], d[1..]);
      Distributes(p[0], d[0], Join(p[1..], d[1..]));
      Distributes(q[0], d[0], Join(q[1..], d[1..]));
    }
  }
}
