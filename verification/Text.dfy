/** The few string functions of the Go standard library that decide what the ledger accepts. */
module Text {
  import opened Prelude

  /** unicode.IsSpace. */
  predicate IsSpace(c: char) {
    c in {' ', '\t', '\n', '\r', '\U{0B}', '\U{0C}', '\U{85}', '\U{A0}', '\U{1680}', '\U{2028}', '\U{2029}',
          '\U{202F}', '\U{205F}', '\U{3000}'}
    || '\U{2000}' <= c <= '\U{200A}'
  }

  function TrimLeft(s: string): string {
    if s != [] && IsSpace(s[0]) then TrimLeft(s[1..]) else s
  }

  function TrimRight(s: string): string {
    if s != [] && IsSpace(s[|s| - 1]) then TrimRight(s[..|s| - 1]) else s
  }

  /** strings.TrimSpace. */
  function TrimSpace(s: string): string { TrimRight(TrimLeft(s)) }

  lemma {:induction false} TrimLeftFixed(s: string)
    ensures TrimLeft(s) == [] || !IsSpace(TrimLeft(s)[0])
  {
    if s != [] && IsSpace(s[0]) { TrimLeftFixed(s[1..]); }
  }

  lemma {:induction false} TrimRightFixed(s: string)
    ensures TrimRight(s) == [] || !IsSpace(TrimRight(s)[|TrimRight(s)| - 1])
    ensures TrimRight(s) <= s
  {
    if s != [] && IsSpace(s[|s| - 1]) { TrimRightFixed(s[..|s| - 1]); }
  }

  lemma {:induction false} TrimSpaceIdempotent(s: string)
    ensures TrimSpace(TrimSpace(s)) == TrimSpace(s)
  {
    var l := TrimLeft(s);
    TrimLeftFixed(s);
    TrimRightFixed(l);
    var t := TrimRight(l);
    if t != [] {
      assert t[0] == l[0];
    }
  }

  /** Trimming takes white space off both ends, all of it and nothing else. */
  lemma TrimSpaceExactly(s: string) returns (front: string, back: string)
    ensures s == front + TrimSpace(s) + back
    ensures (forall i :: 0 <= i < |front| ==> IsSpace(front[i])) && (forall i :: 0 <= i < |back| ==> IsSpace(back[i]))
    ensures TrimSpace(s) != [] ==> !IsSpace(TrimSpace(s)[0]) && !IsSpace(TrimSpace(s)[|TrimSpace(s)| - 1])
  {
    var l := TrimLeft(s);
    front := LeftPart(s);
    back := RightPart(l);
    TrimLeftFixed(s);
    TrimRightFixed(l);
    var t := TrimSpace(s);
    if t != [] { assert t[0] == l[0]; }
    assert s == front + (t + back);
  }

  lemma {:induction false} LeftPart(s: string) returns (front: string)
    ensures s == front + TrimLeft(s) && forall i :: 0 <= i < |front| ==> IsSpace(front[i])
  {
    front := [];
    if s != [] && IsSpace(s[0]) {
      front := LeftPart(s[1..]);
      front := [s[0]] + front;
    }
  }

  lemma {:induction false} RightPart(s: string) returns (back: string)
    ensures s == TrimRight(s) + back && forall i :: 0 <= i < |back| ==> IsSpace(back[i])
  {
    back := [];
    if s != [] && IsSpace(s[|s| - 1]) {
      back := RightPart(s[..|s| - 1]);
      back := back + [s[|s| - 1]];
    }
  }

  predicate IsDigit(c: char) { '0' <= c <= '9' }

  predicate AllDigits(s: string) { forall i :: 0 <= i < |s| ==> IsDigit(s[i]) }

  function DigitsValue(s: string): nat
    requires AllDigits(s)
  {
    if s == [] then 0 else 10 * DigitsValue(s[..|s| - 1]) + (s[|s| - 1] as int - '0' as int)
  }

  /** A decimal integer with an optional sign, within a two's-complement range of the given size. */
  function ParseInteger(s: string, limit: nat): Option<int> {
    var negative := s != [] && s[0] == '-';
    var body := if s != [] && (s[0] == '-' || s[0] == '+') then s[1..] else s;
    if body == [] || !AllDigits(body) then None
    else
      var magnitude: int := DigitsValue(body);
      if negative then (if magnitude <= limit then Some(0 - magnitude) else None)
      else (if magnitude < limit then Some(magnitude) else None)
  }

  /** strconv.ParseInt(s, 10, 64). */
  function ParseInt64(s: string): Option<int> { ParseInteger(s, 0x8000_0000_0000_0000) }

  /** text::integer; None when the cast raises an error. */
  function CastInteger(s: string): Option<int> { ParseInteger(s, 0x8000_0000) }

  /** The longest prefix of s that consists of digits. */
  function LeadingDigits(s: string): (n: nat)
    ensures n <= |s| && AllDigits(s[..n]) && (n == |s| || !IsDigit(s[n]))
  {
    if s == [] || !IsDigit(s[0]) then 0
    else
      var n := LeadingDigits(s[1..]);
      assert s[..n + 1] == [s[0]] + s[1..][..n];
      n + 1
  }

  /** The parts of a JSON number literal; None when the text is not one. */
  datatype NumberParts = NumberParts(negative: bool, whole: string, fraction: string, exponent: int)

  function SplitExponent(s: string): Option<int> {
    if s == [] then Some(0)
    else if s[0] != 'e' && s[0] != 'E' then None
    else
      var body := if |s| > 1 && (s[1] == '+' || s[1] == '-') then s[2..] else s[1..];
      if body == [] || !AllDigits(body) then None
      else if |s| > 1 && s[1] == '-' then Some(0 - DigitsValue(body)) else Some(DigitsValue(body))
  }

  /** The fraction digits, if there is a point, and what follows them. */
  function SplitFraction(s: string): (r: Option<(string, string)>)
    ensures r.Some? ==> AllDigits(r.value.0) && s == (if r.value.0 == [] then "" else "." + r.value.0) + r.value.1
  {
    if s == [] || s[0] != '.' then Some(([], s))
    else
      var k := LeadingDigits(s[1..]);
      if k == 0 then None
      else
        assert s == ("." + s[1..][..k]) + s[1..][k..];
        Some((s[1..][..k], s[1..][k..]))
  }

  /** The grammar encoding/json checks before it writes a json.Number. */
  function SplitJsonNumber(s: string): (r: Option<NumberParts>)
    ensures r.Some? ==> AllDigits(r.value.whole) && AllDigits(r.value.fraction)
  {
    var negative := s != [] && s[0] == '-';
    var body := if negative then s[1..] else s;
    if body == [] || !IsDigit(body[0]) then None
    else
      var n := if body[0] == '0' then 1 else LeadingDigits(body);
      match SplitFraction(body[n..])
      case None => None
      case Some((fraction, tail)) =>
        match SplitExponent(tail)
        case None => None
        case Some(e) => Some(NumberParts(negative, body[..n], fraction, e))
  }

  // ---------------------------------------------------------------- decimal numbers

  /** A decimal number with its display scale: coefficient / 10^scale, printed with scale digits after the point. */
  datatype Numeric = Numeric(coefficient: int, scale: nat)

  function Tenfold(k: nat): nat { if k == 0 then 1 else 10 * Tenfold(k - 1) }

  /** The numeric a literal is stored as: the exponent moves the point, and digits after it stay digits after it. */
  function NumericOf(p: NumberParts): Numeric
    requires AllDigits(p.whole) && AllDigits(p.fraction)
  {
    var digits := DigitsValue(p.whole + p.fraction);
    var signed := if p.negative then 0 - digits else digits;
    if p.exponent <= |p.fraction| then Numeric(signed, |p.fraction| - p.exponent)
    else Numeric(signed * Tenfold(p.exponent - |p.fraction|), 0)
  }

  /** What a numeric can hold: 131072 digits before the point and 16383 after it. */
  predicate StorableNumber(v: Numeric) {
    v.scale <= 16383 && 0 - Tenfold(131072 + v.scale) < v.coefficient < Tenfold(131072 + v.scale)
  }

  /** What a varchar column of the given width can hold. */
  predicate StorableText(s: string, width: nat) { |s| <= width && '\0' !in s }

  /** The integer a number is, if it is one, whatever zeros it is written with. */
  function Whole(v: Numeric): Option<int>
    decreases v.scale
  {
    if v.scale == 0 then Some(v.coefficient)
    else if v.coefficient % 10 == 0 then Whole(Numeric(v.coefficient / 10, v.scale - 1)) else None
  }

  /** The shortest way to write the number, which is how Go prints a float64. */
  function Shortest(v: Numeric): (r: Numeric)
    ensures Whole(r) == Whole(v) && (r.scale == 0 <==> Whole(v).Some?)
    decreases v.scale
  {
    if v.scale > 0 && v.coefficient % 10 == 0 then Shortest(Numeric(v.coefficient / 10, v.scale - 1)) else v
  }

  function DigitText(d: nat): string
    requires d < 10
  {
    [('0' as int + d) as char]
  }

  function DigitsText(n: nat): string {
    if n < 10 then DigitText(n) else DigitsText(n / 10) + DigitText(n % 10)
  }

  function IntegerText(n: int): string { if n < 0 then "-" + DigitsText(-n) else DigitsText(n) }

  /** The digits of n with the point before the last scale of them. */
  function ScaledText(n: nat, scale: nat): string
    requires scale > 0
  {
    (if scale == 1 then DigitsText(n / 10) + "." else ScaledText(n / 10, scale - 1)) + DigitText(n % 10)
  }

  /** What ->> yields for a stored number. */
  function NumericText(v: Numeric): string {
    if v.scale == 0 then IntegerText(v.coefficient)
    else if v.coefficient < 0 then "-" + ScaledText(-v.coefficient, v.scale)
    else ScaledText(v.coefficient, v.scale)
  }

  lemma {:induction false} DigitsTextRoundTrip(n: nat)
    ensures DigitsText(n) != [] && AllDigits(DigitsText(n)) && DigitsValue(DigitsText(n)) == n
  {
    var last := DigitText(n % 10);
    assert DigitsValue(last) == n % 10 by { assert last[..0] == []; }
    if n >= 10 {
      var front := DigitsText(n / 10);
      DigitsTextRoundTrip(n / 10);
      assert (front + last)[..|front + last| - 1] == front;
    }
  }

  lemma {:induction false} ScaledTextHasPoint(n: nat, scale: nat) returns (i: nat)
    requires scale > 0
    ensures 0 < i < |ScaledText(n, scale)| && ScaledText(n, scale)[i] == '.' && IsDigit(ScaledText(n, scale)[0])
  {
    if scale == 1 {
      DigitsTextRoundTrip(n / 10);
      i := |DigitsText(n / 10)|;
    } else {
      i := ScaledTextHasPoint(n / 10, scale - 1);
    }
  }

  /** The cast reads back exactly the numbers stored without digits after the point; any other text is an error. */
  lemma CastReadsIntegers(v: Numeric)
    ensures CastInteger(NumericText(v))
         == if v.scale == 0 && -0x8000_0000 <= v.coefficient < 0x8000_0000 then Some(v.coefficient) else None
  {
    var text := NumericText(v);
    var size: nat := if v.coefficient < 0 then -v.coefficient else v.coefficient;
    if v.scale == 0 {
      DigitsTextRoundTrip(size);
      var digits := DigitsText(size);
      if v.coefficient >= 0 { assert IsDigit(text[0]); } else { assert text[1..] == digits; }
    } else {
      var i := ScaledTextHasPoint(size, v.scale);
      if v.coefficient < 0 { assert text[1..] == ScaledText(size, v.scale); }
    }
  }

  lemma {:induction false} LeadingDigitsAll(s: string)
    requires AllDigits(s)
    ensures LeadingDigits(s) == |s|
  {
  }

  /** After the digits of an integer nothing else can follow that is still a number. */
  lemma NothingFollows(rest: string)
    requires AllDigits(rest)
    ensures SplitFraction(rest) == Some(([], rest))
    ensures SplitExponent(rest) == if rest == [] then Some(0) else None
  {
    if rest != [] { assert IsDigit(rest[0]); }
  }

  lemma IntegerLiteral(s: string, negative: bool, body: string)
    requires s == (if negative then "-" else "") + body && body != [] && AllDigits(body) && SplitJsonNumber(s).Some?
    ensures SplitJsonNumber(s) == Some(NumberParts(negative, body, [], 0))
  {
    assert IsDigit(body[0]);
    var n := if body[0] == '0' then 1 else LeadingDigits(body);
    LeadingDigitsAll(body);
    NothingFollows(body[n..]);
    hide SplitFraction, SplitExponent, LeadingDigits;
    assert (if s[0] == '-' then s[1..] else s) == body;
    assert body[..|body|] == body;
  }

  /** Where both readers accept a literal, they agree on it, and it is stored without digits after the point. */
  lemma {:induction false} NumberReadersAgree(s: string)
    requires ParseInt64(s).Some? && SplitJsonNumber(s).Some?
    ensures NumericOf(SplitJsonNumber(s).value) == Numeric(ParseInt64(s).value, 0)
  {
    var negative := s[0] == '-';
    var body := if negative then s[1..] else s;
    assert IsDigit(body[0]);
    IntegerLiteral(s, negative, body);
    assert body + [] == body;
  }

  // ---------------------------------------------------------------- what a stored number is worth

  predicate SameNumber(a: Numeric, b: Numeric) {
    a.coefficient * Tenfold(b.scale) == b.coefficient * Tenfold(a.scale)
  }

  lemma {:induction false} TenfoldAdds(j: nat, k: nat)
    ensures Tenfold(j + k) == Tenfold(j) * Tenfold(k)
  {
    if k > 0 {
      TenfoldAdds(j, k - 1);
      assert Tenfold(j + k) == 10 * Tenfold(j + k - 1);
    }
  }

  lemma {:induction false} ShortestIsSame(v: Numeric)
    ensures SameNumber(Shortest(v), v)
    decreases v.scale
  {
    if v.scale > 0 && v.coefficient % 10 == 0 {
      var w := Numeric(v.coefficient / 10, v.scale - 1);
      var r := Shortest(w);
      ShortestIsSame(w);
      var a, b, c, d := r.coefficient, Tenfold(w.scale), w.coefficient, Tenfold(r.scale);
      assert a * b == c * d;
      assert a * (10 * b) == (10 * c) * d;
    }
  }

  /** The signed digits of a literal, read without its point and exponent. */
  function LiteralDigits(p: NumberParts): int
    requires AllDigits(p.whole) && AllDigits(p.fraction)
  {
    if p.negative then 0 - DigitsValue(p.whole + p.fraction) else DigitsValue(p.whole + p.fraction)
  }

  /** The number is what the literal says: its digits, times ten to the exponent, over ten to the fraction's length. */
  predicate WorthOf(v: Numeric, p: NumberParts)
    requires AllDigits(p.whole) && AllDigits(p.fraction)
  {
    v.coefficient * (Tenfold(|p.fraction|) * (if p.exponent < 0 then Tenfold(-p.exponent) else 1))
      == LiteralDigits(p) * (Tenfold(v.scale) * (if p.exponent > 0 then Tenfold(p.exponent) else 1))
  }

  lemma LiteralKeepsWorth(p: NumberParts)
    requires AllDigits(p.whole) && AllDigits(p.fraction)
    ensures WorthOf(NumericOf(p), p)
  {
    var v, e, f := NumericOf(p), p.exponent, |p.fraction|;
    var digits := LiteralDigits(p);
    if e > f {
      TenfoldAdds(f, e - f);
      MoveFactor(digits, Tenfold(e - f), Tenfold(f));
    } else if e > 0 {
      TenfoldAdds(f - e, e);
    } else if e < 0 {
      TenfoldAdds(f, -e);
    }
  }

  lemma MoveFactor(a: int, b: int, c: int)
    ensures a * b * c == a * (c * b)
  {
  }

  /** A literal is its sign, its digits without a leading zero, its fraction after a point, and its exponent. */
  lemma LiteralParts(s: string) returns (tail: string)
    requires SplitJsonNumber(s).Some?
    ensures var p := SplitJsonNumber(s).value;
            && s == (if p.negative then "-" else "") + (p.whole + ((if p.fraction == [] then "" else "." + p.fraction) + tail))
            && p.whole != [] && (p.whole[0] == '0' ==> |p.whole| == 1)
            && SplitExponent(tail) == Some(p.exponent)
  {
    hide SplitExponent, SplitFraction, LeadingDigits, AllDigits;
    var p := SplitJsonNumber(s).value;
    var body := if s[0] == '-' then s[1..] else s;
    var n := if body[0] == '0' then 1 else LeadingDigits(body);
    tail := SplitFraction(body[n..]).value.1;
    assert body == p.whole + body[n..];
    assert s == (if p.negative then "-" else "") + body;
  }

  /** An exponent is nothing, or e or E before a decimal integer without bound. */
  lemma ExponentExactly(tail: string)
    ensures SplitExponent(tail) ==
              if tail == [] then Some(0)
              else if tail[0] != 'e' && tail[0] != 'E' then None
              else if ParseInteger(tail[1..], 1 + DigitsBound(tail[1..])).Some?
              then ParseInteger(tail[1..], 1 + DigitsBound(tail[1..])) else None
  {
    if tail != [] {
      var text := tail[1..];
      if |tail| > 1 && (tail[1] == '+' || tail[1] == '-') { assert text[1..] == tail[2..]; }
    }
  }

  /** A bound no signed digit string of this text exceeds. */
  function DigitsBound(s: string): nat {
    var body := if s != [] && (s[0] == '-' || s[0] == '+') then s[1..] else s;
    if AllDigits(body) then DigitsValue(body) else 0
  }

  // ---------------------------------------------------------------- byte lengths

  /** len of a Go string: the bytes of its UTF-8 encoding. */
  function ByteLength(s: string): nat {
    if s == [] then 0
    else
      var c := s[|s| - 1];
      ByteLength(s[..|s| - 1]) + (if c < '\U{80}' then 1 else if c < '\U{800}' then 2 else if c < '\U{10000}' then 3 else 4)
  }

  /** btrim(s), which strips spaces only. */
  function SpaceTrim(s: string): string {
    if s != [] && s[0] == ' ' then SpaceTrim(s[1..])
    else if s != [] && s[|s| - 1] == ' ' then SpaceTrim(s[..|s| - 1])
    else s
  }

  lemma SpaceTrimOfTrimmed(s: string)
    ensures SpaceTrim(TrimSpace(s)) == TrimSpace(s)
  {
    var l := TrimLeft(s);
    TrimLeftFixed(s);
    TrimRightFixed(l);
    var t := TrimSpace(s);
    if t != [] { assert t[0] == l[0]; }
  }

  /** A text has at least as many bytes as characters, and exactly as many when all of them are ASCII. */
  lemma {:induction false} ByteLengthBounds(s: string)
    ensures |s| <= ByteLength(s) <= 4 * |s|
    ensures ByteLength(s) == |s| <==> forall i :: 0 <= i < |s| ==> s[i] < '\U{80}'
  {
    if s != [] { ByteLengthBounds(s[..|s| - 1]); }
  }
}
