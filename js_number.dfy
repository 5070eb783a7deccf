/**
 * Numbers as the application obtains them from text. A time string goes through
 * `split(':').map(Number)` or `parseInt`, and anything that is not a decimal integer
 * becomes NaN, which then makes every comparison false.
 */
module JsNumber {
  import opened JsText

  /** An integer-valued JavaScript number, or NaN. */
  datatype Num = Num(v: int) | NaN

  function Add(a: Num, b: Num): (r: Num)
    ensures r.Num? <==> a.Num? && b.Num?
    ensures r.Num? ==> r.v == a.v + b.v
  {
    if a.Num? && b.Num? then Num(a.v + b.v) else NaN
  }

  function Times(a: Num, k: int): (r: Num)
    ensures r.Num? <==> a.Num?
    ensures r.Num? ==> r.v == a.v * k
  {
    if a.Num? then Num(a.v * k) else NaN
  }

  /** `Math.round(num / den)` for an exact quotient: the nearest integer, a half rounded up. */
  function MathRound(num: int, den: int): (r: int)
    requires den > 0
    ensures 2 * r * den <= 2 * num + den < 2 * r * den + 2 * den
  {
    (2 * num + den) / (2 * den)
  }

  /** A quotient between 0 and `k` rounds to an integer between 0 and `k`. */
  lemma MathRoundRange(num: int, den: int, k: nat)
    requires den > 0 && 0 <= num <= k * den
    ensures 0 <= MathRound(num, den) <= k
  {
    var r := MathRound(num, den);
    assert (2 * r) * den < (2 * k + 2) * den;
    ScaleLess(2 * r, 2 * k + 2, den);
    assert 0 < (2 * r + 2) * den;
    ScaleLess(0, 2 * r + 2, den);
  }

  lemma ScaleLess(a: int, b: int, c: int)
    requires c > 0 && a * c < b * c
    ensures a < b
  {
    assert (b - a) * c == b * c - a * c;
  }

  /** `a < b`; false when either side is NaN. */
  predicate Less(a: Num, b: Num) {
    a.Num? && b.Num? && a.v < b.v
  }

  /** `a <= b`; false when either side is NaN. */
  predicate AtMost(a: Num, b: Num) {
    a.Num? && b.Num? && a.v <= b.v
  }

  /** `a === b`; NaN equals nothing, itself included. */
  predicate Same(a: Num, b: Num) {
    a.Num? && b.Num? && a.v == b.v
  }

  /** The number a trimmed, non-empty decimal literal with an optional sign denotes. */
  function SignedDecimal(t: string): Num {
    if t != [] && (t[0] == '+' || t[0] == '-') then
      var d := t[1..];
      var n: int := if d != [] && AllDigits(d) then DigitsValue(d) else 0;
      if d != [] && AllDigits(d) then Num(if t[0] == '-' then -n else n) else NaN
    else if t != [] && AllDigits(t) then Num(DigitsValue(t))
    else NaN
  }

  /** `Number(s)`: surrounding whitespace is ignored and blank text reads as 0. */
  function NumberOf(s: string): Num {
    var t := Trim(s);
    if t == "" then Num(0) else SignedDecimal(t)
  }

  /** The longest run of decimal digits at the start of `s`. */
  function DigitPrefix(s: string): (p: string)
    ensures |p| <= |s| && p == s[..|p|] && AllDigits(p)
    ensures |p| < |s| ==> !IsDigit(s[|p|])
  {
    if s == [] || !IsDigit(s[0]) then []
    else [s[0]] + DigitPrefix(s[1..])
  }

  /** `parseInt(s)`: leading whitespace and a sign, then as many digits as there are; none is NaN. */
  function ParseInt(s: string): Num {
    var t := TrimStart(s);
    if t != [] && (t[0] == '+' || t[0] == '-') then DigitsRead(t[0] == '-', DigitPrefix(t[1..]))
    else DigitsRead(false, DigitPrefix(t))
  }

  /** The value of the digits `parseInt` took, negated after a minus sign; no digits is NaN. */
  function DigitsRead(negative: bool, p: string): Num
    requires AllDigits(p)
  {
    var v: int := DigitsValue(p);
    if p == [] then NaN else Num(if negative then -v else v)
  }

  /** `const [h, m] = t.split(':').map(Number); h * 60 + m`; a missing minute part is undefined, hence NaN. */
  function TimeMinutes(t: string): Num {
    var parts := Split(t, ':');
    if |parts| < 2 then NaN else Add(Times(NumberOf(parts[0]), 60), NumberOf(parts[1]))
  }

  /** `parseInt(t.split(':')[0]) * 60 + parseInt(t.split(':')[1])`. */
  function TimeMinutesInt(t: string): Num {
    var parts := Split(t, ':');
    if |parts| < 2 then NaN else Add(Times(ParseInt(parts[0]), 60), ParseInt(parts[1]))
  }

  /** A non-empty digit string is read as its decimal value by both `Number` and `parseInt`. */
  lemma ReadDigits(s: string)
    requires s != [] && AllDigits(s)
    ensures NumberOf(s) == Num(DigitsValue(s))
    ensures ParseInt(s) == Num(DigitsValue(s))
  {
    ReadDigitsNumber(s);
    ReadDigitsInt(s);
  }

  lemma ReadDigitsNumber(s: string)
    requires s != [] && AllDigits(s)
    ensures NumberOf(s) == Num(DigitsValue(s))
  {
    assert !IsWhitespace(s[0]) && !IsWhitespace(s[|s| - 1]);
    assert TrimStart(s) == s;
    assert Trim(s) == s;
  }

  lemma ReadDigitsInt(s: string)
    requires s != [] && AllDigits(s)
    ensures ParseInt(s) == Num(DigitsValue(s))
  {
    var c := s[0];
    assert IsDigit(c);
    assert !IsWhitespace(c) && c != '+' && c != '-';
    StartsTrimmed(s);
    ParseIntUnsigned(s);
    DigitPrefixOfDigits(s);
  }

  lemma StartsTrimmed(s: string)
    requires s != [] && !IsWhitespace(s[0])
    ensures TrimStart(s) == s
  {
  }

  /** Text with no leading whitespace and no sign is read as its leading digits. */
  lemma ParseIntUnsigned(s: string)
    requires s != [] && s[0] != '+' && s[0] != '-' && TrimStart(s) == s
    ensures ParseInt(s) == DigitsRead(false, DigitPrefix(s))
  {
  }

  lemma DigitPrefixOfDigits(s: string)
    requires AllDigits(s)
    ensures DigitPrefix(s) == s
  {
  }


  lemma NoColonInDigits(x: string)
    requires AllDigits(x)
    ensures ':' !in x
  {
  }

  /** A digit string, a colon and a digit string split into the two digit strings. */
  lemma SplitDigitPair(x: string, y: string)
    requires AllDigits(x) && AllDigits(y)
    ensures Split(x + ":" + y, ':') == [x, y]
  {
    NoColonInDigits(x);
    NoColonInDigits(y);
    assert x + ":" + y == x + [':'] + y;
    SplitCons(x, ':', y);
  }

  /** `Number` applied to a split into exactly two whole numbers reads hours and minutes. */
  lemma SplitReadsNumber(t: string, x: string, y: string, a: int, b: int)
    requires Split(t, ':') == [x, y]
    requires NumberOf(x) == Num(a) && NumberOf(y) == Num(b)
    ensures TimeMinutes(t) == Num(a * 60 + b)
  {
  }

  /** `parseInt` applied to a split into exactly two whole numbers reads hours and minutes. */
  lemma SplitReadsInt(t: string, x: string, y: string, a: int, b: int)
    requires Split(t, ':') == [x, y]
    requires ParseInt(x) == Num(a) && ParseInt(y) == Num(b)
    ensures TimeMinutesInt(t) == Num(a * 60 + b)
  {
  }

  /** A digit string, a colon and a digit string read as hours and minutes under `Number`. */
  lemma ReadDigitPairNumber(x: string, y: string, a: nat, b: nat)
    requires x != [] && y != [] && AllDigits(x) && AllDigits(y)
    requires DigitsValue(x) == a && DigitsValue(y) == b
    ensures TimeMinutes(x + ":" + y) == Num(a * 60 + b)
  {
    SplitDigitPair(x, y);
    ReadDigitsNumber(x);
    ReadDigitsNumber(y);
    SplitReadsNumber(x + ":" + y, x, y, a, b);
  }

  /** A digit string, a colon and a digit string read as hours and minutes under `parseInt`. */
  lemma ReadDigitPairInt(x: string, y: string, a: nat, b: nat)
    requires x != [] && y != [] && AllDigits(x) && AllDigits(y)
    requires DigitsValue(x) == a && DigitsValue(y) == b
    ensures TimeMinutesInt(x + ":" + y) == Num(a * 60 + b)
  {
    SplitDigitPair(x, y);
    ReadDigitsInt(x);
    ReadDigitsInt(y);
    SplitReadsInt(x + ":" + y, x, y, a, b);
  }
}
