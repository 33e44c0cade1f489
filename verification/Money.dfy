/**
 Exact decimal amounts as text. The export and the admin pages each carry a copy of the same
 minor-unit formatter; `ExactMinor` stands for both. The admin pages and the sanctions page
 format token amounts in two different ways that must agree.
 */
module Money {
  import opened Prelude
  import opened Positional

  predicate IsDigit(c: char) {
    '0' <= c <= '9'
  }

  predicate AreDecimal(s: string) {
    forall i | 0 <= i < |s| :: IsDigit(s[i])
  }

  function DigitsOf(s: string): (ds: seq<nat>)
    requires AreDecimal(s)
    ensures |ds| == |s|
  {
    seq(|s|, i requires 0 <= i < |s| => s[i] as int - '0' as int)
  }

  /** The number that a string of digits writes. */
  function Number(s: string): nat
    requires AreDecimal(s)
  {
    Value(10, DigitsOf(s))
  }

  //// The string operations of the programs

  /** replace(/^0+(?=\d)/, ""): the zeros in front of another digit go. */
  function DropZeros(s: string): string {
    var n := Leading('0', s);
    if n < |s| && IsDigit(s[n]) then s[n..] else if n > 0 then s[n - 1..] else s
  }

  /** replace(/^0+/, ""). */
  function DropAllZeros(s: string): string {
    s[Leading('0', s)..]
  }

  /** replace(/0+$/, ""). */
  function DropTrailingZeros(s: string): (r: string)
    ensures r == "" || r[|r| - 1] != '0'
    ensures r <= s && s == r + Copies('0', |s| - |r|)
  {
    if s != "" && s[|s| - 1] == '0' then DropTrailingZeros(s[..|s| - 1]) else s
  }

  /** padStart(size, "0"). */
  function Pad(s: string, size: nat): string {
    if |s| < size then Copies('0', size - |s|) + s else s
  }

  //// The formatters

  function ExactMinor(value: string, scale: int): string {
    var digits := DropZeros(value);
    if scale <= 0 then digits
    else
      var padded := Pad(digits, scale + 1);
      padded[..|padded| - scale] + "." + padded[|padded| - scale..]
  }

  function FormatAtomic(value: string, scale: int): string {
    var exact := ExactMinor(value, scale);
    if '.' in exact then
      var r := DropTrailingZeros(exact);
      if r != "" && r[|r| - 1] == '.' then r[..|r| - 1] else r
    else exact
  }

  function AtomicAmount(atomic: string, decimals: int): string {
    if atomic == "" || !AreDecimal(atomic) || decimals < 0 || decimals > 77 then atomic
    else
      var digits := Pad(DropAllZeros(atomic), decimals + 1);
      var whole := digits[..|digits| - decimals];
      var fraction := DropTrailingZeros(digits[|digits| - decimals..]);
      if fraction != "" then whole + "." + fraction else whole
  }

  //// What the text of an amount means

  /** No leading zero unless the number is zero. */
  predicate IsCanonical(s: string) {
    s != "" && AreDecimal(s) && (|s| > 1 ==> s[0] != '0')
  }

  lemma {:induction false} PaddingAddsNothing(n: nat, s: string)
    requires AreDecimal(s)
    ensures Number(Copies('0', n) + s) == Number(s)
  {
    assert DigitsOf(Copies('0', n) + s) == Copies(0, n) + DigitsOf(s);
    ZerosAddNothing(10, n, DigitsOf(s));
  }

  lemma {:induction false} NumberConcat(a: string, b: string)
    requires AreDecimal(a) && AreDecimal(b)
    ensures Number(a + b) == Number(a) * Power(10, |b|) + Number(b)
  {
    assert DigitsOf(a + b) == DigitsOf(a) + DigitsOf(b);
    ValueConcat(10, DigitsOf(a), DigitsOf(b));
  }

  lemma {:induction false} DropZerosKeepsNumber(s: string)
    requires s != "" && AreDecimal(s)
    ensures IsCanonical(DropZeros(s)) && Number(DropZeros(s)) == Number(s)
  {
    var n, r := Leading('0', s), DropZeros(s);
    var k := |s| - |r|;
    assert r == s[k..] && k <= n;
    assert s == s[..n][..k] + r;
    assert s == Copies('0', k) + r;
    PaddingAddsNothing(k, r);
  }

  lemma {:induction false} PadKeepsNumber(digits: string, size: nat)
    requires IsCanonical(digits)
    ensures AreDecimal(Pad(digits, size)) && Number(Pad(digits, size)) == Number(digits)
    ensures |Pad(digits, size)| >= size
    ensures |Pad(digits, size)| > size ==> Pad(digits, size) == digits
  {
    if |digits| < size {
      PaddingAddsNothing(size - |digits|, digits);
    }
  }

  /** The text is whole part, point and `scale` fractional digits of exactly value / 10^scale. */
  lemma {:induction false} ExactMinorDenotes(value: string, scale: nat) returns (whole: string, fraction: string)
    requires value != "" && AreDecimal(value) && scale > 0
    ensures ExactMinor(value, scale) == whole + "." + fraction
    ensures IsCanonical(whole) && AreDecimal(fraction) && |fraction| == scale
    ensures Number(whole) * Power(10, scale) + Number(fraction) == Number(value)
  {
    var digits := DropZeros(value);
    DropZerosKeepsNumber(value);
    PadKeepsNumber(digits, scale + 1);
    var padded := Pad(digits, scale + 1);
    whole, fraction := padded[..|padded| - scale], padded[|padded| - scale..];
    PartsOfNumber(padded, whole, fraction);
    if |padded| == scale + 1 {
      assert |whole| == 1;
    }
  }

  lemma {:induction false} PartsOfNumber(padded: string, whole: string, fraction: string)
    requires AreDecimal(padded) && padded == whole + fraction
    ensures AreDecimal(whole) && AreDecimal(fraction)
    ensures Number(whole) * Power(10, |fraction|) + Number(fraction) == Number(padded)
  {
    assert forall i | 0 <= i < |whole| :: whole[i] == padded[i];
    assert forall i | 0 <= i < |fraction| :: fraction[i] == padded[|whole| + i];
    NumberConcat(whole, fraction);
  }

  /** Without fractional digits the text is the canonical number. */
  lemma {:induction false} ExactMinorWhole(value: string, scale: int)
    requires value != "" && AreDecimal(value) && scale <= 0
    ensures IsCanonical(ExactMinor(value, scale)) && Number(ExactMinor(value, scale)) == Number(value)
  {
    DropZerosKeepsNumber(value);
  }

  //// The two token formatters agree

  lemma {:induction false} PaddedAlike(value: string, size: nat)
    requires value != "" && AreDecimal(value) && size > 0
    ensures Pad(DropZeros(value), size) == Pad(DropAllZeros(value), size)
  {
    var n := Leading('0', value);
    if n == |value| {
      assert DropZeros(value) == value[n - 1..] == "0";
      assert DropAllZeros(value) == "";
      assert Copies('0', size - 1) + "0" == Copies('0', size);
    }
  }

  lemma {:induction false} DropTrailingAfterPoint(w: string, f: string)
    requires w != "" && w[|w| - 1] != '0'
    ensures DropTrailingZeros(w + f) == w + DropTrailingZeros(f)
  {
    if f == "" {
      assert w + f == w;
    } else {
      assert (w + f)[..|w + f| - 1] == w + f[..|f| - 1];
      if f[|f| - 1] == '0' {
        DropTrailingAfterPoint(w, f[..|f| - 1]);
      }
    }
  }

  /** Dropping trailing zeros and then a trailing point is dropping the zeros of the fraction, and the point with them. */
  lemma {:induction false} DropZerosAndPoint(exact: string, w: string, f: string)
    requires exact == w + "." + f && AreDecimal(f)
    ensures var r, g := DropTrailingZeros(exact), DropTrailingZeros(f);
            && r != ""
            && (if r[|r| - 1] == '.' then r[..|r| - 1] else r) == if g != "" then w + "." + g else w
  {
    var r, g := DropTrailingZeros(exact), DropTrailingZeros(f);
    DropTrailingAfterPoint(w + ".", f);
    if g == "" {
      assert r == w + "." && r[..|r| - 1] == w;
    } else {
      assert r[|r| - 1] == g[|g| - 1] == f[|g| - 1];
    }
  }

  lemma {:induction false} FormatWithPoint(value: string, decimals: nat, w: string, f: string)
    requires ExactMinor(value, decimals) == w + "." + f && AreDecimal(f)
    ensures FormatAtomic(value, decimals) == var g := DropTrailingZeros(f); if g != "" then w + "." + g else w
  {
    DropZerosAndPoint(ExactMinor(value, decimals), w, f);
    assert ExactMinor(value, decimals)[|w|] == '.';
  }

  /** The short text still denotes value / 10^scale: the zeros it drops end the fraction. */
  lemma {:induction false} FormatAtomicDenotes(value: string, scale: nat) returns (whole: string, fraction: string)
    requires value != "" && AreDecimal(value) && scale > 0
    ensures FormatAtomic(value, scale) == if fraction != "" then whole + "." + fraction else whole
    ensures IsCanonical(whole) && |fraction| <= scale && (fraction == "" || fraction[|fraction| - 1] != '0')
    ensures var padded := fraction + Copies('0', scale - |fraction|);
            AreDecimal(padded) && Number(whole) * Power(10, scale) + Number(padded) == Number(value)
  {
    var f;
    whole, f := ExactMinorDenotes(value, scale);
    FormatWithPoint(value, scale, whole, f);
    fraction := DropTrailingZeros(f);
  }

  /** The sanctions formatter in terms of the digits that the other one pads. */
  lemma {:induction false} AtomicAmountParts(value: string, decimals: nat, w: string, f: string)
    requires value != "" && AreDecimal(value) && decimals <= 77 && |f| == decimals
    requires Pad(DropAllZeros(value), decimals + 1) == w + f
    ensures AtomicAmount(value, decimals) == var g := DropTrailingZeros(f); if g != "" then w + "." + g else w
  {
    assert (w + f)[..|w|] == w && (w + f)[|w|..] == f;
  }

  /** The admin page and the sanctions page show the same amount, for all digit strings and 0 to 77 decimals. */
  lemma {:induction false} TokenFormattersAgree(value: string, decimals: nat)
    requires value != "" && AreDecimal(value) && decimals <= 77
    ensures FormatAtomic(value, decimals) == AtomicAmount(value, decimals)
  {
    PaddedAlike(value, decimals + 1);
    if decimals == 0 {
      WholeAmount(value);
    } else {
      var w, f := ExactMinorDenotes(value, decimals);
      PaddedParts(value, decimals, w, f);
      FormatWithPoint(value, decimals, w, f);
      AtomicAmountParts(value, decimals, w, f);
    }
  }

  lemma {:induction false} WholeAmount(value: string)
    requires value != "" && AreDecimal(value)
    requires Pad(DropZeros(value), 1) == Pad(DropAllZeros(value), 1)
    ensures FormatAtomic(value, 0) == AtomicAmount(value, 0)
  {
    DropZerosKeepsNumber(value);
    AtomicAmountParts(value, 0, DropZeros(value), "");
  }

  lemma {:induction false} PaddedParts(value: string, scale: nat, w: string, f: string)
    requires scale > 0 && ExactMinor(value, scale) == w + "." + f && |f| == scale
    ensures Pad(DropZeros(value), scale + 1) == w + f
  {
    var padded := Pad(DropZeros(value), scale + 1);
    var w', f' := padded[..|padded| - scale], padded[|padded| - scale..];
    assert w' + "." + f' == w + "." + f;
    assert w' == (w' + "." + f')[..|w'|] && f' == (w' + "." + f')[|w'| + 1..];
    assert w == (w + "." + f)[..|w|] && f == (w + "." + f)[|w| + 1..];
  }

  /** Anything but digits, and any number of decimals outside 0 to 77, leaves the text as it is. */
  lemma {:induction false} AtomicAmountAsGiven(atomic: string, decimals: int)
    requires atomic == "" || (exists c :: c in atomic && !('0' <= c <= '9')) || !(0 <= decimals <= 77)
    ensures AtomicAmount(atomic, decimals) == atomic
  {
  }
}
