/**
 * What the importer reads out of a payment's description: the part after
 * the "; в т.ч." marker, and in it the inline KOSGU apportionment tokens
 * `К<3 digits>=<digits and dots>`, found as successive non-overlapping
 * leftmost matches with a greedy amount.
 */
module Extract {
  import opened Basics

  /** "; в т.ч." in UTF-8. */
  const Marker: Bytes := [0x3B, 0x20, 0xD0, 0xB2, 0x20, 0xD1, 0x82, 0x2E, 0xD1, 0x87, 0x2E]

  /** The Cyrillic capital letter К in UTF-8. */
  const KaLead: byte := 0xD0
  const KaTrail: byte := 0x9A

  predicate OccursAt(s: Bytes, pat: Bytes, k: int) {
    0 <= k && k + |pat| <= |s| && s[k..k + |pat|] == pat
  }

  /** `std::string::find`: the first position at which `pat` occurs, if any. */
  function Find(s: Bytes, pat: Bytes): (r: Option<nat>)
    ensures r.None? <==> forall k :: 0 <= k <= |s| ==> !OccursAt(s, pat, k)
    ensures r.Some? ==> OccursAt(s, pat, r.value) && forall k :: 0 <= k < r.value ==> !OccursAt(s, pat, k)
  {
    FindFrom(s, pat, 0)
  }

  function FindFrom(s: Bytes, pat: Bytes, i: nat): (r: Option<nat>)
    requires forall k :: 0 <= k < i ==> !OccursAt(s, pat, k)
    ensures r.None? <==> forall k :: 0 <= k <= |s| ==> !OccursAt(s, pat, k)
    ensures r.Some? ==> OccursAt(s, pat, r.value) && forall k :: 0 <= k < r.value ==> !OccursAt(s, pat, k)
    decreases |s| + 1 - i
  {
    if i + |pat| > |s| then
      assert forall k :: i <= k <= |s| ==> !OccursAt(s, pat, k);
      None
    else if s[i..i + |pat|] == pat then
      assert OccursAt(s, pat, i);
      Some(i)
    else FindFrom(s, pat, i + 1)
  }

  /** The text the apportionment tokens are taken from: what follows the first marker. */
  function DetailsPart(description: Bytes): (r: Option<Bytes>)
    ensures r.None? <==> forall k :: 0 <= k <= |description| ==> !OccursAt(description, Marker, k)
    ensures r.Some? ==> exists k :: && OccursAt(description, Marker, k)
                                    && (forall j :: 0 <= j < k ==> !OccursAt(description, Marker, j))
                                    && r.value == description[k + |Marker|..]
  {
    match Find(description, Marker)
    case None => None
    case Some(k) => Some(description[k + |Marker|..])
  }

  // ------------------------------------------------------------ inline tokens

  /** One match of `К(\d{3})=([\d.]+)`: the two groups. */
  datatype InlineToken = InlineToken(code: Bytes, amount: Bytes)

  predicate IsAmountByte(b: byte) {
    IsDigit(b) || b == Dot
  }

  predicate AllAmountBytes(s: Bytes) {
    forall k :: 0 <= k < |s| ==> IsAmountByte(s[k])
  }

  predicate AllDigits(s: Bytes) {
    forall k :: 0 <= k < |s| ==> IsDigit(s[k])
  }

  /** What a match's groups can hold. */
  predicate WellFormed(t: InlineToken) {
    |t.code| == 3 && AllDigits(t.code) && |t.amount| >= 1 && AllAmountBytes(t.amount)
  }

  /** The token as it appears in a description. */
  function Render(t: InlineToken): Bytes {
    [KaLead, KaTrail] + t.code + [Equals] + t.amount
  }

  /** Length of the greedy `[\d.]+` run at the start of `s` (0 if none). */
  function RunLength(s: Bytes): (n: nat)
    ensures n <= |s|
    ensures AllAmountBytes(s[..n])
    ensures n < |s| ==> !IsAmountByte(s[n])
  {
    if s == [] || !IsAmountByte(s[0]) then 0
    else
      var n := 1 + RunLength(s[1..]);
      assert forall k :: 1 <= k < n ==> s[..n][k] == s[1..][..n - 1][k - 1];
      n
  }

  /** Length of the match that starts at the first byte of `s`, if one does. */
  function MatchLength(s: Bytes): (r: Option<nat>)
    ensures r.Some? <==> && |s| >= 7 && s[0] == KaLead && s[1] == KaTrail
                         && IsDigit(s[2]) && IsDigit(s[3]) && IsDigit(s[4])
                         && s[5] == Equals && IsAmountByte(s[6])
    ensures r.Some? ==> 7 <= r.value <= |s|
    ensures r.Some? ==> r.value == 6 + RunLength(s[6..])
    // the amount is greedy: it takes every amount byte there is
    ensures r.Some? ==> AllAmountBytes(s[6..r.value]) && (r.value < |s| ==> !IsAmountByte(s[r.value]))
  {
    if |s| >= 7 && s[0] == KaLead && s[1] == KaTrail && IsDigit(s[2]) && IsDigit(s[3]) && IsDigit(s[4])
       && s[5] == Equals && IsAmountByte(s[6])
    then
      var n := 6 + RunLength(s[6..]);
      assert s[6..n] == s[6..][..n - 6];
      Some(n)
    else None
  }

  /**
   * `std::sregex_iterator`: each match is the leftmost one at or after the
   * end of the previous match.
   */
  function Scan(s: Bytes): (r: seq<InlineToken>)
    ensures forall k :: 0 <= k < |r| ==> WellFormed(r[k])
    decreases |s|
  {
    if s == [] then []
    else match MatchLength(s)
      case Some(n) =>
        var t := InlineToken(s[2..5], s[6..n]);
        [t] + Scan(s[n..])
      case None => Scan(s[1..])
  }

  /** Every token's rendering occurs somewhere in `s`. */
  ghost predicate AllOccur(s: Bytes, ts: seq<InlineToken>) {
    forall k :: 0 <= k < |ts| ==> Occurs(s, Render(ts[k]))
  }

  ghost predicate Occurs(s: Bytes, pat: Bytes) {
    exists p :: OccursAt(s, pat, p)
  }

  lemma AllOccurShift(s: Bytes, i: nat, ts: seq<InlineToken>)
    requires i <= |s| && AllOccur(s[i..], ts)
    ensures AllOccur(s, ts)
  {
    forall k | 0 <= k < |ts| ensures Occurs(s, Render(ts[k])) {
      var q :| OccursAt(s[i..], Render(ts[k]), q);
      OccursShift(s, i, Render(ts[k]), q);
    }
  }

  lemma OccursShift(s: Bytes, i: nat, pat: Bytes, q: int)
    requires i <= |s| && OccursAt(s[i..], pat, q)
    ensures OccursAt(s, pat, i + q)
  {
    assert s[i..][q..q + |pat|] == s[i + q..i + q + |pat|];
  }

  /** Every token is there in the text: its rendering occurs in `s`. */
  lemma {:induction false} ScanOccurs(s: Bytes)
    ensures AllOccur(s, Scan(s))
    decreases |s|
  {
    if s != [] {
      var m := MatchLength(s);
      if m.Some? {
        var n := m.value;
        ScanOccurs(s[n..]);
        AllOccurShift(s, n, Scan(s[n..]));
        var t := InlineToken(s[2..5], s[6..n]);
        assert s[..n] == Render(t);
        assert OccursAt(s, Render(t), 0);
        var ts := [t] + Scan(s[n..]);
        assert Scan(s) == ts;
        forall k | 0 <= k < |ts| ensures Occurs(s, Render(ts[k])) {
          if k > 0 {
            assert ts[k] == Scan(s[n..])[k - 1];
          }
        }
      } else {
        ScanOccurs(s[1..]);
        AllOccurShift(s, 1, Scan(s[1..]));
        assert Scan(s) == Scan(s[1..]);
      }
    }
  }

  /** Tokens written one after another, each preceded by a space. */
  function RenderAll(ts: seq<InlineToken>): Bytes {
    if ts == [] then [] else [Space] + Render(ts[0]) + RenderAll(ts[1..])
  }

  lemma {:induction false} RunLengthExact(a: Bytes, rest: Bytes)
    requires AllAmountBytes(a)
    requires rest == [] || !IsAmountByte(rest[0])
    ensures RunLength(a + rest) == |a|
    decreases |a|
  {
    if a == [] {
      assert a + rest == rest;
    } else {
      assert (a + rest)[1..] == a[1..] + rest;
      RunLengthExact(a[1..], rest);
    }
  }

  /** A well-formed token followed by a non-amount byte (or nothing) is matched whole. */
  lemma MatchRender(t: InlineToken, rest: Bytes)
    requires WellFormed(t)
    requires rest == [] || !IsAmountByte(rest[0])
    ensures MatchLength(Render(t) + rest) == Some(|Render(t)|)
    ensures (Render(t) + rest)[2..5] == t.code
    ensures (Render(t) + rest)[6..|Render(t)|] == t.amount
    ensures (Render(t) + rest)[|Render(t)|..] == rest
  {
    var body := Render(t) + rest;
    assert |Render(t)| == 6 + |t.amount|;
    assert body[0] == KaLead && body[1] == KaTrail;
    assert body[2..5] == t.code;
    assert body[5] == Equals;
    assert body[6..] == t.amount + rest;
    assert body[6] == t.amount[0];
    RunLengthExact(t.amount, rest);
  }

  lemma ScanRenderOne(t: InlineToken, rest: Bytes)
    requires WellFormed(t)
    requires rest == [] || rest[0] == Space
    ensures Scan([Space] + Render(t) + rest) == [t] + Scan(rest)
  {
    var body := Render(t) + rest;
    var s := [Space] + Render(t) + rest;
    assert s == [Space] + body;
    assert s[1..] == body;
    assert MatchLength(s) == None;
    assert Scan(s) == Scan(body);
    MatchRender(t, rest);
  }

  /** Round trip: scanning well-formed tokens written out with spaces gives them back. */
  lemma {:induction false} ScanRenderAll(ts: seq<InlineToken>)
    requires forall k :: 0 <= k < |ts| ==> WellFormed(ts[k])
    ensures Scan(RenderAll(ts)) == ts
    decreases |ts|
  {
    if ts != [] {
      var rest := RenderAll(ts[1..]);
      assert rest == [] || rest[0] == Space;
      ScanRenderOne(ts[0], rest);
      ScanRenderAll(ts[1..]);
      assert ts == [ts[0]] + ts[1..];
    }
  }

  /** A text in which the letter К never occurs yields no tokens. */
  lemma NoKaNoTokens(s: Bytes)
    requires forall k :: 0 <= k < |s| - 1 ==> !(s[k] == KaLead && s[k + 1] == KaTrail)
    ensures Scan(s) == []
    decreases |s|
  {
    if s != [] {
      NoKaNoTokens(s[1..]);
    }
  }

  /** Conversely, a text with a match anywhere in it yields at least one token. */
  lemma {:induction false} ScanFindsMatch(s: Bytes, i: nat)
    requires i <= |s|
    requires MatchLength(s[i..]).Some?
    ensures Scan(s) != []
    decreases |s|
  {
    if MatchLength(s).None? {
      assert i > 0;
      assert s[1..][i - 1..] == s[i..];
      ScanFindsMatch(s[1..], i - 1);
    }
  }

  // ------------------------------------------------------------ amount text

  /** `std::replace(..., ',', '.')` */
  function CommasToDots(s: Bytes): (r: Bytes)
    ensures |r| == |s|
    ensures forall k :: 0 <= k < |s| ==> r[k] == (if s[k] == Comma then Dot else s[k])
  {
    if s == [] then [] else [if s[0] == Comma then Dot else s[0]] + CommasToDots(s[1..])
  }
}
