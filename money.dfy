/** The money parser of main.go: `parseNum` (decimal digits to an integer) and
    `parseCents` (a dollar amount such as "12.34" to integer cents), with the
    `strings.Split` it relies on. */
module Money {
  import opened Wrappers
  import opened Text

  const Dot: byte := 0x2e
  const Zero: byte := 0x30

  /** An ASCII decimal digit. Every other byte, including each byte of a
      non-ASCII character, is rejected by parseNum. */
  predicate IsDigit(b: byte) {
    0x30 <= b <= 0x39
  }

  predicate AllDigits(s: seq<byte>) {
    forall i | 0 <= i < |s| :: IsDigit(s[i])
  }

  function Pow10(k: nat): (p: nat)
    ensures p >= 1
  {
    if k == 0 then 1 else 10 * Pow10(k - 1)
  }

  /** The number a string of decimal digits denotes, most significant digit
      first; the empty string denotes 0. It has fewer digits than 10^|s|. */
  function DecimalValue(s: seq<byte>): (n: nat)
    requires AllDigits(s)
    ensures n < Pow10(|s|)
  {
    if s == [] then 0 else DecimalValue(s[..|s| - 1]) * 10 + (s[|s| - 1] - Zero)
  }

  lemma DecimalValueAppend(s: seq<byte>, d: byte)
    requires AllDigits(s) && IsDigit(d)
    ensures AllDigits(s + [d]) && DecimalValue(s + [d]) == DecimalValue(s) * 10 + (d - Zero)
  {
    assert (s + [d])[..|s|] == s;
  }

  /** The canonical decimal spelling of `n`: no leading zero, "0" for zero.
      Reading it back gives `n`. */
  function DecimalDigits(n: nat): (s: seq<byte>)
    ensures s != [] && AllDigits(s)
    ensures DecimalValue(s) == n
  {
    if n < 10 then
      assert [Zero + n][..0] == [];
      [Zero + n]
    else
      var t := DecimalDigits(n / 10);
      DecimalValueAppend(t, Zero + n % 10);
      t + [Zero + n % 10]
  }

  /** The `width`-digit spelling of `n`, with leading zeros ("07" for 7). */
  function FixedDigits(n: nat, width: nat): (s: seq<byte>)
    requires n < Pow10(width)
    ensures |s| == width && AllDigits(s) && DecimalValue(s) == n
  {
    if width == 0 then []
    else
      var t := FixedDigits(n / 10, width - 1);
      DecimalValueAppend(t, Zero + n % 10);
      t + [Zero + n % 10]
  }

  datatype NumError = InvalidDigit

  /** parseNum: reads the digits left to right, accumulating num*10 + digit,
      and fails at the first byte that is not a digit. It succeeds exactly on
      strings of digits (the empty string included) and then returns their
      decimal value. */
  method ParseNum(s: seq<byte>) returns (r: Result<nat, NumError>)
    ensures r.Success? <==> AllDigits(s)
    ensures r.Success? ==> r.value == DecimalValue(s)
  {
    var num := 0;
    for i := 0 to |s|
      invariant AllDigits(s[..i]) && num == DecimalValue(s[..i])
    {
      var digit := s[i] - Zero;
      if digit < 0 || digit > 9 {
        return Failure(InvalidDigit);
      }
      assert s[..i + 1] == s[..i] + [s[i]];
      DecimalValueAppend(s[..i], s[i]);
      num := num * 10 + digit;
    }
    assert s[..|s|] == s;
    return Success(num);
  }

  // ---------------------------------------------------------------------------
  // strings.Split with a one-byte separator
  // ---------------------------------------------------------------------------

  /** strings.Split(s, sep): the pieces between the occurrences of `sep`;
      there is always at least one piece and none contains `sep`. */
  function Split(s: seq<byte>, sep: byte): (parts: seq<seq<byte>>)
    ensures |parts| >= 1
    ensures forall i | 0 <= i < |parts| :: sep !in parts[i]
  {
    if s == [] then [[]]
    else
      var rest := Split(s[1..], sep);
      if s[0] == sep then [[]] + rest else [[s[0]] + rest[0]] + rest[1..]
  }

  /** strings.Join(parts, sep): the inverse of Split. */
  function Join(parts: seq<seq<byte>>, sep: byte): seq<byte>
    requires |parts| >= 1
  {
    if |parts| == 1 then parts[0] else parts[0] + [sep] + Join(parts[1..], sep)
  }

  /** Joining the pieces gives back the split string. */
  lemma {:induction false} JoinSplit(s: seq<byte>, sep: byte)
    ensures Join(Split(s, sep), sep) == s
  {
    if s != [] {
      var rest := Split(s[1..], sep);
      JoinSplit(s[1..], sep);
      if s[0] == sep {
        assert Split(s, sep)[1..] == rest;
      } else {
        var parts := Split(s, sep);
        if |rest| > 1 {
          assert parts[1..] == rest[1..];
          assert Join(rest, sep) == rest[0] + [sep] + Join(rest[1..], sep);
        }
      }
    }
  }

  /** A separator-free prefix sticks to the first piece. */
  lemma {:induction false} SplitPrefix(a: seq<byte>, t: seq<byte>, sep: byte)
    requires sep !in a
    ensures Split(a + t, sep) == [a + Split(t, sep)[0]] + Split(t, sep)[1..]
  {
    if a == [] {
      assert a + t == t;
      assert a + Split(t, sep)[0] == Split(t, sep)[0];
      assert Split(t, sep) == [Split(t, sep)[0]] + Split(t, sep)[1..];
    } else {
      assert (a + t)[1..] == a[1..] + t;
      SplitPrefix(a[1..], t, sep);
      assert [a[0]] + (a[1..] + Split(t, sep)[0]) == a + Split(t, sep)[0];
    }
  }

  /** Splitting the join of separator-free pieces gives the pieces back. */
  lemma {:induction false} SplitJoin(parts: seq<seq<byte>>, sep: byte)
    requires |parts| >= 1
    requires forall i | 0 <= i < |parts| :: sep !in parts[i]
    ensures Split(Join(parts, sep), sep) == parts
  {
    var p := parts[0];
    if |parts| == 1 {
      SplitPrefix(p, [], sep);
      assert p + [] == p;
    } else {
      var j := Join(parts[1..], sep);
      SplitJoin(parts[1..], sep);
      assert ([sep] + j)[1..] == j;
      assert Split([sep] + j, sep) == [[]] + parts[1..];
      assert p + [sep] + j == p + ([sep] + j);
      SplitPrefix(p, [sep] + j, sep);
      assert p + [] == p;
    }
  }

  /** The first piece is everything before the first separator; when a
      separator follows, the remaining pieces are those of the rest. */
  lemma SplitAtFirst(a: seq<byte>, tail: seq<byte>, sep: byte)
    requires sep !in a
    requires tail == [] || tail[0] == sep
    ensures Split(a + tail, sep)[0] == a
    ensures |Split(a + tail, sep)| == 1 <==> tail == []
    ensures tail != [] ==> Split(a + tail, sep)[1..] == Split(tail[1..], sep)
  {
    SplitPrefix(a, tail, sep);
    assert a + [] == a;
  }

  // ---------------------------------------------------------------------------
  // parseCents
  // ---------------------------------------------------------------------------

  /** The errors of parseCents; each names the field it was parsing (the item's
      short description, or "total"). */
  datatype AmountError = InvalidDollars(description: seq<byte>) | InvalidCents(description: seq<byte>)

  /** parseCents: splits on every "."; the first piece is the dollars, the
      second (if any) the cents, of at most two digits, a single digit being
      tenths; any further pieces are ignored. */
  function ParseCents(description: seq<byte>, amount: seq<byte>): (r: Result<nat, AmountError>)
    ensures r.Failure? ==> r.error.description == description
  {
    var parts := Split(amount, Dot);
    if !AllDigits(parts[0]) then Failure(InvalidDollars(description))
    else
      var dollars := DecimalValue(parts[0]);
      if |parts| > 1 then
        if !AllDigits(parts[1]) || |parts[1]| > 2 then Failure(InvalidCents(description))
        else
          var cents := DecimalValue(parts[1]);
          Success(dollars * 100 + (if |parts[1]| == 1 then cents * 10 else cents))
      else
        Success(dollars * 100)
  }

  /** parseCents: split on '.', parse the dollars with parseNum, then, when
      there is a point, the cents (at most two digits, one digit meaning tens). */
  method ParseAmount(description: seq<byte>, amount: seq<byte>) returns (r: Result<nat, AmountError>)
    ensures r == ParseCents(description, amount)
  {
    var parts := Split(amount, Dot);
    var dollars := ParseNum(parts[0]);
    if dollars.Failure? {
      return Failure(InvalidDollars(description));
    }
    var cents := 0;
    if |parts| > 1 {
      var fraction := ParseNum(parts[1]);
      if fraction.Failure? || |parts[1]| > 2 {
        return Failure(InvalidCents(description));
      }
      cents := fraction.value;
      if |parts[1]| == 1 {
        cents := cents * 10;
      }
    }
    return Success(dollars.value * 100 + cents);
  }

  /** Both pieces survive intact in the result: the dollars are the result
      divided by 100 and the cents piece, scaled to two digits, is the rest. */
  lemma ParseCentsDollars(description: seq<byte>, amount: seq<byte>)
    requires ParseCents(description, amount).Success?
    ensures var (parts, value) := (Split(amount, Dot), ParseCents(description, amount).value);
      && AllDigits(parts[0])
      && value / 100 == DecimalValue(parts[0])
      && (|parts| == 1 ==> value % 100 == 0)
      && (|parts| > 1 ==> AllDigits(parts[1]) && |parts[1]| <= 2
                          && value % 100 == DecimalValue(parts[1]) * Pow10(2 - |parts[1]|))
  {
    var parts := Split(amount, Dot);
    var dollars := DecimalValue(parts[0]);
    var cents := ParseCents(description, amount).value - dollars * 100;
    if |parts| > 1 {
      assert Pow10(|parts[1]|) <= 100;
      assert cents == DecimalValue(parts[1]) * Pow10(2 - |parts[1]|);
      assert 0 <= cents < 100;
    }
    assert ParseCents(description, amount).value == dollars * 100 + cents;
  }

  /** "d" with no point parses to d*100. */
  lemma ParseCentsWhole(description: seq<byte>, d: seq<byte>)
    requires AllDigits(d)
    ensures ParseCents(description, d) == Success(DecimalValue(d) * 100)
  {
    assert Dot !in d;
    SplitAtFirst(d, [], Dot);
    assert d + [] == d;
  }

  /** "d.cc" parses to d*100 + cc, "d.c" to d*100 + c*10 and "d." to d*100;
      whatever follows a second point is ignored. */
  lemma ParseCentsFraction(description: seq<byte>, amount: seq<byte>, d: seq<byte>, c: seq<byte>, tail: seq<byte>)
    requires amount == d + [Dot] + c + tail
    requires AllDigits(d) && AllDigits(c) && |c| <= 2
    requires tail == [] || tail[0] == Dot
    ensures ParseCents(description, amount)
         == Success(DecimalValue(d) * 100 + DecimalValue(c) * Pow10(2 - |c|))
  {
    SplitFraction(d, c, tail);
    ParseCentsOfPieces(description, amount);
  }

  /** parseCents in terms of the first two pieces of the split. */
  lemma ParseCentsOfPieces(description: seq<byte>, amount: seq<byte>)
    requires var parts := Split(amount, Dot);
      |parts| > 1 && AllDigits(parts[0]) && AllDigits(parts[1]) && |parts[1]| <= 2
    ensures var parts := Split(amount, Dot);
      ParseCents(description, amount)
        == Success(DecimalValue(parts[0]) * 100 + DecimalValue(parts[1]) * Pow10(2 - |parts[1]|))
  {
    var parts := Split(amount, Dot);
    var v := DecimalValue(parts[1]);
    assert Pow10(0) == 1 && Pow10(1) == 10 && Pow10(2) == 100;
    assert (if |parts[1]| == 1 then v * 10 else v) == v * Pow10(2 - |parts[1]|);
  }

  /** The pieces of "d.c..." when d and c hold no point. */
  lemma SplitFraction(d: seq<byte>, c: seq<byte>, tail: seq<byte>)
    requires Dot !in d && Dot !in c
    requires tail == [] || tail[0] == Dot
    ensures var parts := Split(d + [Dot] + c + tail, Dot);
      |parts| > 1 && parts[0] == d && parts[1] == c
  {
    var rest := [Dot] + c + tail;
    assert d + [Dot] + c + tail == d + rest;
    SplitAtFirst(d, rest, Dot);
    assert rest[1..] == c + tail;
    SplitAtFirst(c, tail, Dot);
  }

  /** parseCents when the first two pieces are known to be d and two digits c. */
  lemma ParseCentsOfTwo(description: seq<byte>, amount: seq<byte>, d: seq<byte>, c: seq<byte>)
    requires var parts := Split(amount, Dot); |parts| > 1 && parts[0] == d && parts[1] == c
    requires AllDigits(d) && AllDigits(c) && |c| == 2
    ensures ParseCents(description, amount) == Success(DecimalValue(d) * 100 + DecimalValue(c))
  {
  }

  /** The common "d.cc" form: d dollars and cc cents. */
  lemma ParseCentsDollarsCents(description: seq<byte>, d: seq<byte>, c: seq<byte>)
    requires AllDigits(d) && AllDigits(c) && |c| == 2
    ensures ParseCents(description, d + [Dot] + c) == Success(DecimalValue(d) * 100 + DecimalValue(c))
  {
    var amount := d + [Dot] + c;
    assert amount == d + [Dot] + c + [];
    SplitFraction(d, c, []);
    ParseCentsOfTwo(description, amount, d, c);
  }

  /** A non-digit before the first point rejects the amount as bad dollars. */
  lemma ParseCentsBadDollars(description: seq<byte>, amount: seq<byte>, d: seq<byte>, tail: seq<byte>)
    requires amount == d + tail
    requires Dot !in d && !AllDigits(d)
    requires tail == [] || tail[0] == Dot
    ensures ParseCents(description, amount) == Failure(InvalidDollars(description))
  {
    SplitAtFirst(d, tail, Dot);
  }

  /** After valid dollars, a non-digit or a third digit between the first and
      the second point rejects the amount as bad cents. */
  lemma ParseCentsBadCents(description: seq<byte>, amount: seq<byte>, d: seq<byte>, c: seq<byte>, tail: seq<byte>)
    requires amount == d + [Dot] + c + tail
    requires AllDigits(d) && Dot !in c && (!AllDigits(c) || |c| > 2)
    requires tail == [] || tail[0] == Dot
    ensures ParseCents(description, amount) == Failure(InvalidCents(description))
  {
    assert Dot !in d;
    SplitFraction(d, c, tail);
  }

  /** The dollar spelling of a cents amount, as a client would send it. */
  function FormatCents(cents: nat): seq<byte> {
    DecimalDigits(cents / 100) + [Dot] + FixedDigits(cents % 100, 2)
  }

  /** Every amount written as "dollars.cc" parses back to itself. */
  lemma ParseCentsFormat(description: seq<byte>, cents: nat)
    ensures ParseCents(description, FormatCents(cents)) == Success(cents)
  {
    var d := DecimalDigits(cents / 100);
    var c := FixedDigits(cents % 100, 2);
    assert Pow10(2) == 100;
    assert FormatCents(cents) == d + [Dot] + c + [];
    ParseCentsFraction(description, FormatCents(cents), d, c, []);
  }
}
