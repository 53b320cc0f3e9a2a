/** Reading the two chain heads and the contract out of a recorded chain-mismatch error. */
module MismatchText {
  import opened Basics
  import opened Text

  const LOCAL := "local latest "
  const EXPECTED := " != expected "
  const TOKEN := "token "
  const MISMATCH := " (smart_contract) chain mismatch"

  /** The literal stands in s at position i. */
  predicate At(s: string, i: nat, literal: string) {
    i + |literal| <= |s| && forall k :: 0 <= k < |literal| ==> s[i + k] == literal[k]
  }

  predicate HexAt(s: string, i: nat) {
    i + 64 <= |s| && forall k :: i <= k < i + 64 ==> IsHexDigit(s[k])
  }

  /** \S of the regular expression package. */
  predicate Solid(c: char) {
    c != ' ' && c != '\t' && c != '\n' && c != '\r' && c as int != 12
  }

  /** The first expression matches at i: two heads of 64 hex digits. */
  predicate HeadsAt(s: string, i: nat) {
    At(s, i, LOCAL) && HexAt(s, i + 13) && At(s, i + 77, EXPECTED) && HexAt(s, i + 90)
  }

  /** End of the run of solid characters that starts at i. */
  function SolidEnd(s: string, i: nat): (r: nat)
    requires i <= |s|
    ensures i <= r <= |s| && (r < |s| ==> !Solid(s[r]))
    ensures forall k :: i <= k < r ==> Solid(s[k])
    decreases |s| - i
  {
    if i < |s| && Solid(s[i]) then SolidEnd(s, i + 1) else i
  }

  /** The second expression matches at i. */
  predicate ContractAt(s: string, i: nat) {
    At(s, i, TOKEN) && SolidEnd(s, i + 6) > i + 6 && At(s, SolidEnd(s, i + 6), MISMATCH)
  }

  /** Leftmost match of the first expression at or after i. */
  function FindHeads(s: string, i: nat): (r: Option<nat>)
    requires i <= |s|
    ensures r.Some? ==> i <= r.value && HeadsAt(s, r.value) && forall k :: i <= k < r.value ==> !HeadsAt(s, k)
    ensures r.None? ==> forall k :: i <= k ==> !HeadsAt(s, k)
    decreases |s| - i
  {
    if HeadsAt(s, i) then Some(i) else if i == |s| then None else FindHeads(s, i + 1)
  }

  function FindContract(s: string, i: nat): (r: Option<nat>)
    requires i <= |s|
    ensures r.Some? ==> i <= r.value && ContractAt(s, r.value) && forall k :: i <= k < r.value ==> !ContractAt(s, k)
    ensures r.None? ==> forall k :: i <= k ==> !ContractAt(s, k)
    decreases |s| - i
  {
    if ContractAt(s, i) then Some(i) else if i == |s| then None else FindContract(s, i + 1)
  }

  datatype Info = Info(contract: string, quorumHead: string, ownerExpected: string)

  /** parseMismatch; an absent contract is the empty string. */
  function ParseMismatch(s: string): (r: Option<Info>)
    ensures r.Some? ==> |r.value.quorumHead| == 64 && |r.value.ownerExpected| == 64
    ensures r.Some? <==> exists i :: HeadsAt(s, i)
  {
    match FindHeads(s, 0)
    case None => None
    case Some(i) =>
      var contract := match FindContract(s, 0)
        case None => ""
        case Some(j) => s[j + 6..SolidEnd(s, j + 6)];
      Some(Info(contract, s[i + 13..i + 77], s[i + 90..i + 154]))
  }

  /* -------------------------------- round trip ----------------------------------- */

  ghost predicate Contains(s: string, literal: string) {
    exists i :: At(s, i, literal)
  }

  predicate IsHead(h: string) {
    |h| == 64 && HexAt(h, 0)
  }

  predicate IsContract(c: string) {
    c != [] && forall k :: 0 <= k < |c| ==> Solid(c[k])
  }

  predicate FindsHeads(s: string, i: nat) {
    FindHeads(s, 0).Some? && FindHeads(s, 0).value == i
  }

  predicate FindsContract(s: string, i: nat) {
    FindContract(s, 0).Some? && FindContract(s, 0).value == i
  }

  lemma ParsedAt(s: string, i: nat, j: nat)
    requires FindsContract(s, i) && FindsHeads(s, j)
    ensures ParseMismatch(s) == Some(Info(s[i + 6..SolidEnd(s, i + 6)], s[j + 13..j + 77], s[j + 90..j + 154]))
  {
  }

  lemma ContainedBefore(s: string, i: nat, k: nat, literal: string)
    requires At(s, k, literal) && k + |literal| <= i <= |s|
    ensures Contains(s[..i], literal)
  {
    assert At(s[..i], k, literal);
  }

  lemma Overlap(s: string, k: nat, i: nat, literal: string)
    requires At(s, k, literal) && At(s, i, literal) && k < i < k + |literal|
    ensures literal[i - k] == literal[0] && (i - k + 1 < |literal| ==> literal[i - k + 1] == literal[1])
  {
    assert s[i + 0] == literal[0] && s[k + (i - k)] == literal[i - k];
    if i - k + 1 < |literal| {
      assert s[i + 1] == literal[1] && s[k + (i - k + 1)] == literal[i - k + 1];
    }
  }

  lemma LocalHasNoBorder(d: nat)
    requires 0 < d < 13
    ensures LOCAL[d] != LOCAL[0] || (d < 12 && LOCAL[d + 1] != LOCAL[1])
  {
  }

  lemma TokenHasNoBorder(d: nat)
    requires 0 < d < 6
    ensures TOKEN[d] != TOKEN[0]
  {
  }

  /** Neither marker overlaps itself, so the first occurrence is the one after a text without it. */
  lemma FirstLocal(s: string, i: nat, k: nat)
    requires At(s, i, LOCAL) && !Contains(s[..i], LOCAL) && k < i
    ensures !At(s, k, LOCAL)
  {
    if At(s, k, LOCAL) {
      if k + 13 <= i {
        ContainedBefore(s, i, k, LOCAL);
      } else {
        LocalHasNoBorder(i - k);
        Overlap(s, k, i, LOCAL);
      }
    }
  }

  lemma FirstToken(s: string, i: nat, k: nat)
    requires At(s, i, TOKEN) && !Contains(s[..i], TOKEN) && k < i
    ensures !At(s, k, TOKEN)
  {
    if At(s, k, TOKEN) {
      if k + 6 <= i {
        ContainedBefore(s, i, k, TOKEN);
      } else {
        TokenHasNoBorder(i - k);
        Overlap(s, k, i, TOKEN);
      }
    }
  }

  /** In a text without the opening marker before it, no earlier match starts. */
  lemma NoEarlierHeads(s: string, i: nat, k: nat)
    requires At(s, i, LOCAL) && !Contains(s[..i], LOCAL) && k < i
    ensures !HeadsAt(s, k)
  {
    FirstLocal(s, i, k);
  }

  lemma NoEarlierContract(s: string, i: nat, k: nat)
    requires At(s, i, TOKEN) && !Contains(s[..i], TOKEN) && k < i
    ensures !ContractAt(s, k)
  {
    FirstToken(s, i, k);
  }

  /** The heads of a message are those of its leftmost full match; markers without heads are skipped. */
  lemma HeadsReadBack(s: string, i: nat, q: string, e: string)
    requires IsHead(q) && IsHead(e) && forall k: nat :: k < i ==> !HeadsAt(s, k)
    requires At(s, i, LOCAL) && At(s, i + 13, q) && At(s, i + 77, EXPECTED) && At(s, i + 90, e)
    ensures FindsHeads(s, i) && s[i + 13..i + 77] == q && s[i + 90..i + 154] == e
  {
    forall k | i + 13 <= k < i + 77 ensures s[k] == q[k - i - 13] {
      assert s[i + 13 + (k - i - 13)] == q[k - i - 13];
    }
    forall k | i + 90 <= k < i + 154 ensures s[k] == e[k - i - 90] {
      assert s[i + 90 + (k - i - 90)] == e[k - i - 90];
    }
    assert HeadsAt(s, i);
  }

  lemma ContractReadBack(s: string, i: nat, c: string)
    requires IsContract(c) && forall k: nat :: k < i ==> !ContractAt(s, k)
    requires At(s, i, TOKEN) && At(s, i + 6, c) && At(s, i + 6 + |c|, MISMATCH)
    ensures FindsContract(s, i) && SolidEnd(s, i + 6) == i + 6 + |c| && s[i + 6..i + 6 + |c|] == c
  {
    forall k | i + 6 <= k < i + 6 + |c| ensures s[k] == c[k - i - 6] {
      assert s[i + 6 + (k - i - 6)] == c[k - i - 6];
    }
    assert s[i + 6 + |c| + 0] == MISMATCH[0];
    assert ContractAt(s, i);
  }

  /**
   The shape of the quorum's message: "token <c> (smart_contract) chain mismatch" at i and
   "local latest <q> != expected <e>" at j, each the first of its kind. Other text may stand anywhere,
   lone opening words included.
   */
  ghost predicate Reports(s: string, i: nat, c: string, j: nat, q: string, e: string) {
    && IsContract(c) && IsHead(q) && IsHead(e)
    && At(s, i, TOKEN) && At(s, i + 6, c) && At(s, i + 6 + |c|, MISMATCH)
    && (forall k: nat :: k < i ==> !ContractAt(s, k))
    && At(s, j, LOCAL) && At(s, j + 13, q) && At(s, j + 77, EXPECTED) && At(s, j + 90, e)
    && (forall k: nat :: k < j ==> !HeadsAt(s, k))
  }

  /** Parsing recovers the contract and both heads from any message of that shape. */
  lemma MessageReadsBack(s: string, i: nat, c: string, j: nat, q: string, e: string)
    requires Reports(s, i, c, j, q, e)
    ensures ParseMismatch(s) == Some(Info(c, q, e))
  {
    HeadsReadBack(s, j, q, e);
    ContractReadBack(s, i, c);
    ParsedAt(s, i, j);
  }

  /* --------------------------- the message as it is written ----------------------- */

  lemma AtMiddle(left: string, literal: string, right: string)
    ensures At(left + literal + right, |left|, literal)
  {
  }

  lemma AtWithin(left: string, s: string, i: nat, literal: string)
    requires At(s, i, literal)
    ensures At(left + s, |left| + i, literal)
  {
    forall k | 0 <= k < |literal| ensures (left + s)[|left| + i + k] == literal[k] {
      assert (left + s)[|left| + (i + k)] == s[i + k];
    }
  }

  lemma AtLonger(s: string, i: nat, literal: string, right: string)
    requires At(s, i, literal)
    ensures At(s + right, i, literal)
  {
    forall k | 0 <= k < |literal| ensures (s + right)[i + k] == literal[k] {
      assert s[i + k] == literal[k];
    }
  }

  /** "token <c> (smart_contract) chain mismatch" */
  function ContractPart(c: string): string {
    TOKEN + c + MISMATCH
  }

  /** "local latest <q> != expected <e>" */
  function HeadsPart(q: string, e: string): string {
    LOCAL + q + EXPECTED + e
  }

  lemma ContractPartAt(c: string)
    ensures var p := ContractPart(c);
            At(p, 0, TOKEN) && At(p, 6, c) && At(p, 6 + |c|, MISMATCH) && |p| == 6 + |c| + |MISMATCH|
  {
    assert TOKEN + (c + MISMATCH) == ContractPart(c);
    AtMiddle([], TOKEN, c + MISMATCH);
    assert [] + TOKEN + (c + MISMATCH) == ContractPart(c);
    AtMiddle(TOKEN, c, MISMATCH);
    AtMiddle(TOKEN + c, MISMATCH, []);
    assert TOKEN + c + MISMATCH + [] == ContractPart(c);
  }

  lemma HeadsPartAt(q: string, e: string)
    requires |q| == |e| == 64
    ensures var p := HeadsPart(q, e);
            At(p, 0, LOCAL) && At(p, 13, q) && At(p, 77, EXPECTED) && At(p, 90, e)
  {
    var p := HeadsPart(q, e);
    AtMiddle([], LOCAL, q + EXPECTED + e);
    assert [] + LOCAL + (q + EXPECTED + e) == p;
    AtMiddle(LOCAL, q, EXPECTED + e);
    assert LOCAL + q + (EXPECTED + e) == p;
    AtMiddle(LOCAL + q, EXPECTED, e);
    AtMiddle(LOCAL + q + EXPECTED, e, []);
    assert LOCAL + q + EXPECTED + e + [] == p;
  }

  /** A part that stands between two other texts stands at the length of the first. */
  lemma PartAt(left: string, part: string, right: string, i: nat, literal: string)
    requires At(part, i, literal)
    ensures At(left + part + right, |left| + i, literal)
  {
    AtWithin(left, part, i, literal);
    AtLonger(left + part, |left| + i, literal, right);
  }

  /** A message as the quorum writes it, with any text before, between and after. */
  function Message(pre: string, c: string, mid: string, q: string, e: string, post: string): string {
    pre + ContractPart(c) + mid + HeadsPart(q, e) + post
  }

  lemma Regroup(u: string, v: string, w: string, x: string, y: string)
    ensures u + v + (w + x + y) == u + v + w + x + y == (u + v + w) + x + y
  {
    assert u + v + (w + x + y) == u + v + w + x + y;
  }

  /** What the pattern calls a head, a contract and an occurrence. */
  lemma HeadIs(h: string)
    ensures IsHead(h) <==> |h| == 64 && forall i :: 0 <= i < 64 ==> '0' <= h[i] <= '9' || 'a' <= h[i] <= 'f'
  {
  }

  lemma ContractIs(c: string)
    ensures IsContract(c)
            <==> |c| > 0 && forall i :: 0 <= i < |c| ==> c[i] as int !in {9, 10, 12, 13, 32}
  {
  }

  lemma ContainsIs(s: string, literal: string)
    ensures Contains(s, literal) <==> exists i, j :: 0 <= i <= j <= |s| && s[i..j] == literal
  {
    if i: nat :| At(s, i, literal) {
      assert s[i..i + |literal|] == literal;
    }
    if i, j :| 0 <= i <= j <= |s| && s[i..j] == literal {
      assert forall k :: 0 <= k < |literal| ==> s[i + k] == s[i..j][k];
      assert At(s, i, literal);
    }
  }

  lemma ContractInMessage(pre: string, c: string, rest: string)
    requires IsContract(c) && !Contains(pre, TOKEN)
    ensures var s := pre + ContractPart(c) + rest;
            && At(s, |pre|, TOKEN) && At(s, |pre| + 6, c) && At(s, |pre| + 6 + |c|, MISMATCH)
            && forall k: nat :: k < |pre| ==> !ContractAt(s, k)
  {
    var s := pre + ContractPart(c) + rest;
    ContractPartAt(c);
    PartAt(pre, ContractPart(c), rest, 0, TOKEN);
    PartAt(pre, ContractPart(c), rest, 6, c);
    PartAt(pre, ContractPart(c), rest, 6 + |c|, MISMATCH);
    assert s[..|pre|] == pre;
    forall k: nat | k < |pre| ensures !ContractAt(s, k) {
      NoEarlierContract(s, |pre|, k);
    }
  }

  /** A text cut at the length of its first part is that part. */
  lemma CutFirst(left: string, part: string, right: string)
    ensures (left + part + right)[..|left|] == left
  {
  }

  lemma NoneBefore(s: string, before: string)
    requires |before| <= |s| && s[..|before|] == before && !Contains(before, LOCAL) && At(s, |before|, LOCAL)
    ensures forall k: nat :: k < |before| ==> !HeadsAt(s, k)
  {
    forall k: nat | k < |before| ensures !HeadsAt(s, k) {
      NoEarlierHeads(s, |before|, k);
    }
  }

  lemma HeadsInMessage(before: string, q: string, e: string, post: string)
    requires IsHead(q) && IsHead(e) && !Contains(before, LOCAL)
    ensures var s := before + HeadsPart(q, e) + post;
            && At(s, |before|, LOCAL) && At(s, |before| + 13, q) && At(s, |before| + 77, EXPECTED)
            && At(s, |before| + 90, e)
            && forall k: nat :: k < |before| ==> !HeadsAt(s, k)
  {
    var part := HeadsPart(q, e);
    HeadsPartAt(q, e);
    PartAt(before, part, post, 0, LOCAL);
    PartAt(before, part, post, 13, q);
    PartAt(before, part, post, 77, EXPECTED);
    PartAt(before, part, post, 90, e);
    CutFirst(before, part, post);
    NoneBefore(before + part + post, before);
  }

  /**
   Round trip: what was written into the message is what is read out of it, if the text before the contract
   holds no "token " and nothing before the heads holds "local latest ".
   */
  lemma MessageRoundTrip(pre: string, c: string, mid: string, q: string, e: string, post: string)
    requires IsContract(c) && IsHead(q) && IsHead(e)
    requires !Contains(pre, TOKEN) && !Contains(pre + ContractPart(c) + mid, LOCAL)
    ensures ParseMismatch(Message(pre, c, mid, q, e, post)) == Some(Info(c, q, e))
    ensures ParseMismatch(pre + ("token " + c + " (smart_contract) chain mismatch") + mid
                          + ("local latest " + q + " != expected " + e) + post) == Some(Info(c, q, e))
  {
    var before := pre + ContractPart(c) + mid;
    HeadsInMessage(before, q, e, post);
    ContractInMessage(pre, c, mid + HeadsPart(q, e) + post);
    Regroup(pre, ContractPart(c), mid, HeadsPart(q, e), post);
    MessageReadsBack(Message(pre, c, mid, q, e, post), |pre|, c, |before|, q, e);
  }
}
