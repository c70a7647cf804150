/** Text as UTF-8 bytes: ASCII whitespace trimming (strings.TrimSpace) and the
    retailer-name classifier `countAlphanumeric` (main.go). */
module Text {

  /** One byte of UTF-8 encoded text. Every byte of a multi-byte code point
      is at least 0x80, so no such byte is ever classified as ASCII below. */
  type byte = b: int | 0 <= b < 0x100

  /** The bytes of a string made only of ASCII characters. */
  function Ascii(s: string): seq<byte>
    requires forall i | 0 <= i < |s| :: s[i] as int < 0x80
  {
    seq(|s|, i requires 0 <= i < |s| => s[i] as int)
  }

  // ---------------------------------------------------------------------------
  // Whitespace trimming
  // ---------------------------------------------------------------------------

  /** The ASCII white space that strings.TrimSpace removes: \t \n \v \f \r and space. */
  predicate IsSpace(b: byte) {
    b == 0x20 || 0x09 <= b <= 0x0d
  }

  predicate AllSpace(s: seq<byte>) {
    forall k | 0 <= k < |s| :: IsSpace(s[k])
  }

  /** `s` neither starts nor ends with white space. */
  predicate Trimmed(s: seq<byte>) {
    s != [] ==> !IsSpace(s[0]) && !IsSpace(s[|s| - 1])
  }

  /** Drops the leading white space. */
  function TrimLeft(s: seq<byte>): seq<byte> {
    if s != [] && IsSpace(s[0]) then TrimLeft(s[1..]) else s
  }

  /** Drops the trailing white space. */
  function TrimRight(s: seq<byte>): seq<byte> {
    if s != [] && IsSpace(s[|s| - 1]) then TrimRight(s[..|s| - 1]) else s
  }

  /** strings.TrimSpace restricted to ASCII white space: the result is no
      longer than its input and has no white space at either end. */
  function TrimSpace(s: seq<byte>): (r: seq<byte>)
    ensures |r| <= |s| && Trimmed(r)
  {
    TrimLeftSuffix(s);
    TrimRightPrefix(TrimLeft(s));
    TrimRight(TrimLeft(s))
  }

  /** TrimLeft keeps a suffix of `s` that does not start with white space, and
      everything it drops is white space. */
  lemma {:induction false} TrimLeftSuffix(s: seq<byte>)
    ensures var r := TrimLeft(s);
      |r| <= |s| && r == s[|s| - |r|..] && AllSpace(s[..|s| - |r|]) && (r != [] ==> !IsSpace(r[0]))
    decreases |s|
  {
    if s != [] && IsSpace(s[0]) {
      TrimLeftSuffix(s[1..]);
      var r := TrimLeft(s[1..]);
      assert s[1..][..|s| - 1 - |r|] == s[1..|s| - |r|];
      assert s[1..][|s| - 1 - |r|..] == s[|s| - |r|..];
    } else {
      assert s[|s|..] == [] && s[..0] == [];
    }
  }

  /** TrimRight keeps a prefix of `s` that does not end with white space, and
      everything it drops is white space. */
  lemma {:induction false} TrimRightPrefix(s: seq<byte>)
    ensures var r := TrimRight(s);
      |r| <= |s| && r == s[..|r|] && AllSpace(s[|r|..]) && (r != [] ==> !IsSpace(r[|r| - 1]))
    decreases |s|
  {
    if s != [] && IsSpace(s[|s| - 1]) {
      TrimRightPrefix(s[..|s| - 1]);
      var r := TrimRight(s[..|s| - 1]);
      assert s[..|s| - 1][|r|..] + [s[|s| - 1]] == s[|r|..];
    } else {
      assert s[..|s|] == s;
    }
  }

  /** What TrimSpace keeps is a slice of its input, and all it drops is white
      space: the input is lead + result + trail with lead and trail blank. */
  lemma TrimSpaceDecomposition(s: seq<byte>)
    ensures var r := TrimSpace(s);
      exists lo | 0 <= lo <= |s| - |r| ::
        s[lo..lo + |r|] == r && AllSpace(s[..lo]) && AllSpace(s[lo + |r|..])
  {
    var l := TrimLeft(s);
    var r := TrimRight(l);
    TrimLeftSuffix(s);
    TrimRightPrefix(l);
    var lo := |s| - |l|;
    assert s[lo..] == l;
    assert s[lo..lo + |r|] == r;
    assert s[lo + |r|..] == l[|r|..];
    assert AllSpace(s[..lo]) && AllSpace(s[lo + |r|..]);
  }

  lemma {:induction false} TrimLeftSpaces(p: seq<byte>, m: seq<byte>)
    requires AllSpace(p) && (m != [] ==> !IsSpace(m[0]))
    ensures TrimLeft(p + m) == m
    decreases |p|
  {
    if p != [] {
      assert (p + m)[1..] == p[1..] + m;
      TrimLeftSpaces(p[1..], m);
    } else {
      assert p + m == m;
    }
  }

  lemma {:induction false} TrimRightSpaces(m: seq<byte>, q: seq<byte>)
    requires AllSpace(q) && (m != [] ==> !IsSpace(m[|m| - 1]))
    ensures TrimRight(m + q) == m
    decreases |q|
  {
    if q != [] {
      assert (m + q)[..|m + q| - 1] == m + q[..|q| - 1];
      TrimRightSpaces(m, q[..|q| - 1]);
    } else {
      assert m + q == m;
    }
  }

  /** Trimming is determined by the decomposition: whatever white space
      surrounds a trimmed core, TrimSpace returns exactly that core. */
  lemma TrimSpaceOfPadded(p: seq<byte>, m: seq<byte>, q: seq<byte>)
    requires AllSpace(p) && AllSpace(q) && Trimmed(m)
    ensures TrimSpace(p + m + q) == m
  {
    if m == [] {
      assert p + m + q == p + q;
      TrimLeftSpaces(p + q, []);
      assert p + q + [] == p + q;
    } else {
      assert p + m + q == p + (m + q);
      TrimLeftSpaces(p, m + q);
      TrimRightSpaces(m, q);
    }
  }

  /** A text without white space at either end is left as it is. */
  lemma TrimSpaceOfTrimmed(s: seq<byte>)
    requires Trimmed(s)
    ensures TrimSpace(s) == s
  {
    assert [] + s + [] == s;
    TrimSpaceOfPadded([], s, []);
  }

  /** Trimming twice is trimming once. */
  lemma TrimSpaceIdempotent(s: seq<byte>)
    ensures TrimSpace(TrimSpace(s)) == TrimSpace(s)
  {
    TrimSpaceOfTrimmed(TrimSpace(s));
  }

  // ---------------------------------------------------------------------------
  // ASCII alphanumeric count
  // ---------------------------------------------------------------------------

  /** A byte in a-z, A-Z or 0-9. */
  predicate IsAlnum(b: byte) {
    'a' as int <= b <= 'z' as int || 'A' as int <= b <= 'Z' as int || '0' as int <= b <= '9' as int
  }

  /** The number of ASCII letters and digits in `s`. */
  function AlnumCount(s: seq<byte>): (n: nat)
    ensures n <= |s|
  {
    if s == [] then 0 else AlnumCount(s[..|s| - 1]) + (if IsAlnum(s[|s| - 1]) then 1 else 0)
  }

  /** countAlphanumeric: one pass over the bytes, counting the alphanumerics. */
  method CountAlphanumeric(s: seq<byte>) returns (count: int)
    ensures count == AlnumCount(s)
  {
    count := 0;
    for i := 0 to |s|
      invariant count == AlnumCount(s[..i])
    {
      assert s[..i + 1][..i] == s[..i];
      if IsAlnum(s[i]) {
        count := count + 1;
      }
    }
    assert s[..|s|] == s;
  }

  /** The count of a concatenation is the sum of the counts. */
  lemma {:induction false} AlnumCountConcat(a: seq<byte>, b: seq<byte>)
    ensures AlnumCount(a + b) == AlnumCount(a) + AlnumCount(b)
    decreases |b|
  {
    if b == [] {
      assert a + b == a;
    } else {
      assert (a + b)[..|a + b| - 1] == a + b[..|b| - 1];
      AlnumCountConcat(a, b[..|b| - 1]);
    }
  }

  /** A one-byte string counts 1 exactly when its byte is alphanumeric. */
  lemma AlnumCountSingle(b: byte)
    ensures AlnumCount([b]) == if IsAlnum(b) then 1 else 0
  {
    assert [b][..0] == [];
  }

  /** The count reaches the length exactly when every byte is alphanumeric. */
  lemma {:induction false} AlnumCountAll(s: seq<byte>)
    ensures AlnumCount(s) == |s| <==> forall i | 0 <= i < |s| :: IsAlnum(s[i])
  {
    if s != [] {
      var t := s[..|s| - 1];
      AlnumCountAll(t);
      assert forall i | 0 <= i < |t| :: t[i] == s[i];
    }
  }

  /** The count is zero exactly when no byte is alphanumeric: punctuation, white
      space and every byte of a non-ASCII character contribute nothing. */
  lemma {:induction false} AlnumCountNone(s: seq<byte>)
    ensures AlnumCount(s) == 0 <==> forall i | 0 <= i < |s| :: !IsAlnum(s[i])
  {
    if s != [] {
      var t := s[..|s| - 1];
      AlnumCountNone(t);
      assert forall i | 0 <= i < |t| :: t[i] == s[i];
    }
  }
}
