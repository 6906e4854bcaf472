/** The string helpers of the importer: `split` (getline semantics) and `trim`. */
module Text {
  import opened Basics

  // ---------------------------------------------------------------- split

  /** Position of the first `d` in `s`, or `|s|` when there is none. */
  function IndexOf(s: Bytes, d: byte): (i: nat)
    ensures i <= |s|
    ensures forall k :: 0 <= k < i ==> s[k] != d
    ensures i < |s| ==> s[i] == d
  {
    if s == [] then 0
    else if s[0] == d then 0
    else 1 + IndexOf(s[1..], d)
  }

  /**
   * The tokens repeated `std::getline(stream, token, d)` extracts from `s`:
   * each call consumes up to and including the next `d`, and a call that
   * reaches the end having extracted nothing fails and ends the loop.
   */
  function Tokens(s: Bytes, d: byte): (r: seq<Bytes>)
    ensures r == [] <==> s == []
    decreases |s|
  {
    if s == [] then []
    else
      var i := IndexOf(s, d);
      if i == |s| then [s] else [s[..i]] + Tokens(s[i + 1..], d)
  }

  /** The tokens put back together with one `d` between neighbours. */
  function Join(ts: seq<Bytes>, d: byte): Bytes
  {
    if ts == [] then []
    else if |ts| == 1 then ts[0]
    else ts[0] + [d] + Join(ts[1..], d)
  }

  predicate EndsWith(s: Bytes, d: byte) {
    |s| > 0 && s[|s| - 1] == d
  }

  /** Loop form of `split`: one getline call per token, pushed in order. */
  method Split(s: Bytes, delimiter: byte) returns (tokens: seq<Bytes>)
    ensures tokens == Tokens(s, delimiter)
  {
    tokens := [];
    var pos := 0;
    while pos < |s|
      invariant 0 <= pos <= |s|
      invariant tokens + Tokens(s[pos..], delimiter) == Tokens(s, delimiter)
      decreases |s| - pos
    {
      var token, next := GetLine(s, pos, delimiter);
      tokens := tokens + [token];
      pos := next;
    }
  }

  /**
   * One `std::getline(stream, token, d)` call on a stream positioned at
   * `pos`: collects bytes up to the next delimiter and consumes it.
   */
  method GetLine(s: Bytes, pos: nat, d: byte) returns (token: Bytes, next: nat)
    requires pos < |s|
    ensures pos < next <= |s|
    ensures d !in token
    ensures Tokens(s[pos..], d) == [token] + Tokens(s[next..], d)
  {
    token := [];
    var i := pos;
    while i < |s| && s[i] != d
      invariant pos <= i <= |s|
      invariant token == s[pos..i]
      invariant forall k :: pos <= k < i ==> s[k] != d
    {
      token := token + [s[i]];
      i := i + 1;
    }
    TokensStep(s, pos, i, d);
    next := if i < |s| then i + 1 else i;
  }

  /** One getline call: the token runs from `pos` to the next delimiter `i`. */
  lemma TokensStep(s: Bytes, pos: nat, i: nat, d: byte)
    requires pos < |s| && pos <= i <= |s|
    requires forall k :: pos <= k < i ==> s[k] != d
    requires i < |s| ==> s[i] == d
    ensures i < |s| ==> Tokens(s[pos..], d) == [s[pos..i]] + Tokens(s[i + 1..], d)
    ensures i == |s| ==> Tokens(s[pos..], d) == [s[pos..i]] && Tokens(s[i..], d) == []
  {
    var t := s[pos..];
    IndexOfExact(t, d, i - pos);
    assert t[..i - pos] == s[pos..i];
    if i < |s| {
      assert Tokens(t, d) == [t[..i - pos]] + Tokens(t[i - pos + 1..], d);
      assert t[i - pos + 1..] == s[i + 1..];
    } else {
      assert Tokens(t, d) == [t];
      assert t == s[pos..i];
      assert s[i..] == [];
    }
  }

  /** `IndexOf` is the first delimiter position: any position with its defining properties is it. */
  lemma {:induction false} IndexOfExact(s: Bytes, d: byte, i: nat)
    requires i <= |s|
    requires forall k :: 0 <= k < i ==> s[k] != d
    requires i < |s| ==> s[i] == d
    ensures IndexOf(s, d) == i
    decreases i
  {
    if i > 0 {
      assert s[0] != d;
      assert forall k :: 0 <= k < i - 1 ==> s[1..][k] == s[k + 1];
      IndexOfExact(s[1..], d, i - 1);
    }
  }

  /** No token returned by `split` contains the delimiter. */
  lemma {:induction false} TokensExcludeDelimiter(s: Bytes, d: byte)
    ensures forall t :: t in Tokens(s, d) ==> d !in t
    decreases |s|
  {
    if s != [] {
      var i := IndexOf(s, d);
      assert d !in s[..i] by {
        assert forall k :: 0 <= k < i ==> s[..i][k] != d;
      }
      if i < |s| {
        TokensExcludeDelimiter(s[i + 1..], d);
        ExcludeCons(s[..i], Tokens(s[i + 1..], d), d);
      } else {
        assert s[..i] == s;
      }
    }
  }

  lemma ExcludeCons(head: Bytes, ts: seq<Bytes>, d: byte)
    requires d !in head
    requires forall t :: t in ts ==> d !in t
    ensures forall t :: t in [head] + ts ==> d !in t
  {
  }

  /**
   * Joining the tokens gives back the input, except for one trailing
   * delimiter, which getline swallows without producing an empty token.
   */
  lemma {:induction false} JoinTokens(s: Bytes, d: byte)
    ensures Join(Tokens(s, d), d) + (if EndsWith(s, d) then [d] else []) == s
    decreases |s|
  {
    if s != [] {
      var i := IndexOf(s, d);
      if i < |s| {
        var head := s[..i];
        var rest := s[i + 1..];
        assert s == head + [d] + rest;
        assert Tokens(s, d) == [head] + Tokens(rest, d);
        if rest == [] {
          assert Join([head], d) == head;
        } else {
          JoinTokens(rest, d);
          JoinTokensCons(s, head, rest, d);
        }
      } else {
        assert Tokens(s, d) == [s];
        assert !EndsWith(s, d);
      }
    }
  }

  /** The step of `JoinTokens` for a first token followed by more input. */
  lemma JoinTokensCons(s: Bytes, head: Bytes, rest: Bytes, d: byte)
    requires s == head + [d] + rest && rest != []
    requires Tokens(s, d) == [head] + Tokens(rest, d)
    requires Join(Tokens(rest, d), d) + (if EndsWith(rest, d) then [d] else []) == rest
    ensures Join(Tokens(s, d), d) + (if EndsWith(s, d) then [d] else []) == s
  {
    var tr := Tokens(rest, d);
    var tail: Bytes := if EndsWith(rest, d) then [d] else [];
    JoinCons(head, tr, d, tail);
    assert EndsWith(s, d) == EndsWith(rest, d) by {
      assert s[|s| - 1] == rest[|rest| - 1];
    }
  }

  /** Joining a first token onto more tokens, followed by `tail`. */
  lemma JoinCons(head: Bytes, tr: seq<Bytes>, d: byte, tail: Bytes)
    requires tr != []
    ensures Join([head] + tr, d) + tail == head + [d] + (Join(tr, d) + tail)
  {
    assert ([head] + tr)[1..] == tr;
  }

  /**
   * Splitting a join gives back the tokens, provided no token holds the
   * delimiter and the last token is not empty (an empty last token would
   * leave a trailing delimiter, or nothing at all).
   */
  lemma {:induction false} TokensJoin(ts: seq<Bytes>, d: byte)
    requires forall t :: t in ts ==> d !in t
    requires ts == [] || ts[|ts| - 1] != []
    ensures Tokens(Join(ts, d), d) == ts
    decreases |ts|
  {
    if |ts| == 1 {
      var t0 := ts[0];
      assert d !in t0;
      IndexOfExact(t0, d, |t0|);
    } else if |ts| > 1 {
      var t0 := ts[0];
      var more := Join(ts[1..], d);
      var s := t0 + [d] + more;
      assert Join(ts, d) == s;
      assert d !in t0;
      IndexOfExact(s, d, |t0|);
      assert s[..|t0|] == t0;
      assert s[|t0| + 1..] == more;
      assert ts[1..][|ts[1..]| - 1] == ts[|ts| - 1];
      TokensJoin(ts[1..], d);
      assert ts == [t0] + ts[1..];
    }
  }

  // ---------------------------------------------------------------- trim

  /** The bytes `trim` strips: space, tab, newline, carriage return, double quote. */
  predicate IsStripped(b: byte) {
    b == Space || b == Tab || b == LineFeed || b == CarriageReturn || b == Quote
  }

  predicate AllStripped(s: Bytes) {
    forall k :: 0 <= k < |s| ==> IsStripped(s[k])
  }

  /** `s` is empty, or neither starts nor ends with a stripped byte. */
  predicate IsTrimmed(s: Bytes) {
    s == [] || (!IsStripped(s[0]) && !IsStripped(s[|s| - 1]))
  }

  /** `find_first_not_of`, with `|s|` for npos. */
  function FirstKept(s: Bytes): (i: nat)
    ensures i <= |s|
    ensures forall k :: 0 <= k < i ==> IsStripped(s[k])
    ensures i < |s| ==> !IsStripped(s[i])
  {
    if s == [] then 0
    else if !IsStripped(s[0]) then 0
    else 1 + FirstKept(s[1..])
  }

  /** One past `find_last_not_of`, with 0 when every byte is stripped. */
  function LastKeptEnd(s: Bytes): (j: nat)
    ensures j <= |s|
    ensures forall k :: j <= k < |s| ==> IsStripped(s[k])
    ensures j > 0 ==> !IsStripped(s[j - 1])
  {
    if s == [] then 0
    else if !IsStripped(s[|s| - 1]) then |s|
    else LastKeptEnd(s[..|s| - 1])
  }

  /** `trim`: the input without its leading and trailing stripped bytes. */
  function Trim(s: Bytes): (r: Bytes)
    ensures IsTrimmed(r)
    ensures r == [] <==> AllStripped(s)
    ensures exists i, j :: 0 <= i <= j <= |s| && r == s[i..j] && AllStripped(s[..i]) && AllStripped(s[j..])
  {
    var first := FirstKept(s);
    if first == |s| then
      assert s[0..0] == [] && AllStripped(s[..0]) && AllStripped(s[0..]);
      []
    else
      var last := LastKeptEnd(s);
      assert !IsStripped(s[first]);
      assert first < last;
      assert AllStripped(s[..first]) && AllStripped(s[last..]);
      s[first..last]
  }

  /** Trimming what is already trimmed changes nothing. */
  lemma TrimTrimmed(s: Bytes)
    requires IsTrimmed(s)
    ensures Trim(s) == s
  {
    if s != [] {
      assert FirstKept(s) == 0;
      assert LastKeptEnd(s) == |s|;
      assert s[0..|s|] == s;
    }
  }

  /** `trim` is idempotent. */
  lemma TrimIdempotent(s: Bytes)
    ensures Trim(Trim(s)) == Trim(s)
  {
    TrimTrimmed(Trim(s));
  }

  /**
   * The inverse direction: surrounding a trimmed string with stripped bytes
   * and trimming gives that string back.
   */
  lemma TrimPadded(p: Bytes, r: Bytes, q: Bytes)
    requires AllStripped(p) && AllStripped(q) && IsTrimmed(r)
    ensures Trim(p + r + q) == r
  {
    var s := p + r + q;
    if r == [] {
      assert s == p + q;
      assert forall k :: 0 <= k < |s| ==> s[k] == if k < |p| then p[k] else q[k - |p|];
    } else {
      FirstKeptPadded(p, r + q);
      assert s == p + (r + q);
      LastKeptEndPadded(p + r, q);
      assert s[|p|..|p| + |r|] == r;
    }
  }

  lemma {:induction false} FirstKeptPadded(p: Bytes, t: Bytes)
    requires AllStripped(p) && t != [] && !IsStripped(t[0])
    ensures FirstKept(p + t) == |p|
    decreases |p|
  {
    if p == [] {
      assert p + t == t;
    } else {
      assert (p + t)[0] == p[0];
      assert (p + t)[1..] == p[1..] + t;
      FirstKeptPadded(p[1..], t);
    }
  }

  lemma {:induction false} LastKeptEndPadded(t: Bytes, q: Bytes)
    requires AllStripped(q) && t != [] && !IsStripped(t[|t| - 1])
    ensures LastKeptEnd(t + q) == |t|
    decreases |q|
  {
    var s := t + q;
    if q == [] {
      assert s == t;
    } else {
      assert s[|s| - 1] == q[|q| - 1];
      assert s[..|s| - 1] == t + q[..|q| - 1];
      LastKeptEndPadded(t, q[..|q| - 1]);
    }
  }
}
