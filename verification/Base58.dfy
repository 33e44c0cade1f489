/** The base58 decoder of the screening importer, and the encoder it inverts. */
module Base58 {
  import opened Prelude
  import opened Positional

  /** Digits and letters in their order, without 0, I, O and l. */
  const ALPHABET := "123456789" + "ABCDEFGH" + "JKLMN" + "PQRSTUVWXYZ" + "abcdefghijk" + "mnopqrstuvwxyz"

  /** The first position of `c` in `s`, or -1, as `str.find` reports it. */
  function Find(s: string, c: char): (i: int)
    ensures -1 <= i < |s|
    ensures i >= 0 ==> s[i] == c
    ensures forall k | 0 <= k < (if i < 0 then |s| else i) :: s[k] != c
  {
    if s == "" then -1
    else if s[0] == c then 0
    else
      var i := Find(s[1..], c);
      if i < 0 then -1 else i + 1
  }

  predicate AscendingTo(s: string, n: nat)
    requires n <= |s|
    decreases n
  {
    n <= 1 || (s[n - 2] < s[n - 1] && AscendingTo(s, n - 1))
  }

  lemma AlphabetAscends()
    ensures |ALPHABET| == 58
    ensures AscendingTo(ALPHABET, 58)
  {
    assert AscendingTo(ALPHABET, 8);
    assert AscendingTo(ALPHABET, 16);
    assert AscendingTo(ALPHABET, 24);
    assert AscendingTo(ALPHABET, 32);
    assert AscendingTo(ALPHABET, 40);
    assert AscendingTo(ALPHABET, 48);
    assert AscendingTo(ALPHABET, 54);
  }

  lemma {:induction false} AscendingIsDistinct(s: string, n: nat, i: nat, j: nat)
    requires n <= |s| && AscendingTo(s, n) && i < j < n
    ensures s[i] < s[j]
  {
    if j == n - 1 {
      if i < n - 2 {
        AscendingIsDistinct(s, n - 1, i, n - 2);
      }
    } else {
      AscendingIsDistinct(s, n - 1, i, j);
    }
  }

  /** Every digit has its own character. */
  lemma {:induction false} FindAlphabet(d: nat)
    requires d < 58
    ensures |ALPHABET| == 58
    ensures Find(ALPHABET, ALPHABET[d]) == d
  {
    AlphabetAscends();
    var i := Find(ALPHABET, ALPHABET[d]);
    if 0 <= i < d {
      AscendingIsDistinct(ALPHABET, 58, i, d);
    }
  }

  /** Consecutive characters. */
  lemma {:induction false} InRange(s: string, first: char, last: char, c: char)
    requires first <= last && |s| == last as int - first as int + 1
    requires forall i | 0 <= i < |s| :: s[i] as int == first as int + i
    ensures c in s <==> first <= c <= last
  {
    if first <= c <= last {
      assert s[c as int - first as int] == c;
    }
  }

  /** The alphabet is the ASCII letters and digits without 0, I, O and l. */
  lemma {:induction false} AlphabetExactly(c: char)
    ensures c in ALPHABET <==>
            ('0' <= c <= '9' || 'A' <= c <= 'Z' || 'a' <= c <= 'z') && c !in {'0', 'I', 'O', 'l'}
  {
    InRange("123456789", '1', '9', c);
    InRange("ABCDEFGH", 'A', 'H', c);
    InRange("JKLMN", 'J', 'N', c);
    InRange("PQRSTUVWXYZ", 'P', 'Z', c);
    InRange("abcdefghijk", 'a', 'k', c);
    InRange("mnopqrstuvwxyz", 'm', 'z', c);
  }

  //// Strings and digits

  /** Only characters of the alphabet `abc`. */
  predicate IsOver(abc: string, s: string) {
    forall i | 0 <= i < |s| :: s[i] in abc
  }

  function Indices(abc: string, s: string): (ds: seq<nat>)
    requires IsOver(abc, s)
    ensures |ds| == |s| && AreDigits(|abc|, ds)
  {
    seq(|s|, i requires 0 <= i < |s| => Find(abc, s[i]))
  }

  predicate IsBase58(s: string) {
    IsOver(ALPHABET, s)
  }

  function Digits(s: string): (ds: seq<nat>)
    requires IsBase58(s)
    ensures |ds| == |s| && AreDigits(58, ds)
  {
    AlphabetAscends();
    Indices(ALPHABET, s)
  }

  function Characters(ds: seq<nat>): (s: string)
    requires AreDigits(58, ds)
    ensures |s| == |ds| && IsBase58(s)
  {
    AlphabetAscends();
    seq(|ds|, i requires 0 <= i < |ds| => ALPHABET[ds[i]])
  }

  lemma {:induction false} CharactersOfDigits(s: string)
    requires IsBase58(s)
    ensures Characters(Digits(s)) == s
  {
  }

  lemma {:induction false} DigitsOfCharacters(ds: seq<nat>)
    requires AreDigits(58, ds)
    ensures Digits(Characters(ds)) == ds
  {
    forall i | 0 <= i < |ds|
      ensures Digits(Characters(ds))[i] == ds[i]
    {
      FindAlphabet(ds[i]);
    }
  }

  //// The codec

  /** The usual encoder: the bytes as one number in base 58, each leading zero byte as a `1`. */
  function Encode(bytes: seq<Byte>): (s: string)
    ensures IsBase58(s)
  {
    Characters(Recode(256, 58, bytes))
  }

  /** What decoding means: nothing outside the alphabet, otherwise the change of base the other way. */
  function DecodeOver(abc: string, s: string): Option<seq<nat>> {
    if IsOver(abc, s) then Some(Recode(58, 256, Indices(abc, s))) else None
  }

  function Decode(s: string): Option<seq<nat>> {
    DecodeOver(ALPHABET, s)
  }

  lemma {:induction false} DecodeUndoesEncode(bytes: seq<Byte>)
    ensures Decode(Encode(bytes)) == Some(bytes)
  {
    DigitsOfCharacters(Recode(256, 58, bytes));
    RecodeUndone(256, 58, bytes);
  }

  lemma {:induction false} EncodeUndoesDecode(s: string)
    requires IsBase58(s)
    ensures Decode(s).Some? && AreDigits(256, Decode(s).value)
    ensures Encode(Decode(s).value) == s
  {
    RecodeUndone(58, 256, Digits(s));
    CharactersOfDigits(s);
  }

  //// The program

  /** `int.bit_length`. */
  function BitLength(n: nat): nat {
    if n == 0 then 0 else 1 + BitLength(n / 2)
  }

  /** `int.to_bytes(size, "big")`, whose precondition is that the number fits. */
  function ToBytes(n: nat, size: nat): seq<nat> {
    if size == 0 then [] else ToBytes(n / 256, size - 1) + [n % 256]
  }

  lemma {:induction false} BitLengthBound(n: nat, k: nat)
    requires n < Power(2, k)
    ensures BitLength(n) <= k
  {
    if n > 0 {
      BitLengthBound(n / 2, k - 1);
    }
  }

  lemma {:induction false} BitLengthOfByte(n: nat)
    requires 0 < n < 256
    ensures 1 <= BitLength(n) <= 8
  {
    assert Power(2, 8) == 256;
    BitLengthBound(n, 8);
  }

  lemma {:induction false} BitLengthByBytes(n: nat)
    requires n >= 256
    ensures BitLength(n) == 8 + BitLength(n / 256)
  {
    var a := n / 2 / 2 / 2 / 2;
    assert BitLength(n) == 2 + BitLength(n / 2 / 2);
    assert BitLength(n / 2 / 2) == 2 + BitLength(a);
    assert BitLength(a) == 2 + BitLength(a / 2 / 2);
    assert BitLength(a / 2 / 2) == 2 + BitLength(a / 2 / 2 / 2 / 2);
    assert a / 2 / 2 / 2 / 2 == n / 256;
  }

  /** The byte count taken from the bit length is exactly enough: no leading zero byte, nothing cut off. */
  lemma {:induction false} ToBytesIsShortest(n: nat)
    ensures ToBytes(n, (BitLength(n) + 7) / 8) == Shortest(256, n)
  {
    if 0 < n < 256 {
      BitLengthOfByte(n);
      assert (BitLength(n) + 7) / 8 == 1;
      assert ToBytes(n / 256, 0) == [];
    } else if n >= 256 {
      BitLengthByBytes(n);
      assert (BitLength(n) + 7) / 8 == 1 + (BitLength(n / 256) + 7) / 8;
      ToBytesIsShortest(n / 256);
    }
  }

  lemma {:induction false} OnesAreZeros(abc: string, s: string)
    requires IsOver(abc, s) && abc != "" && abc[0] == '1'
    ensures Leading('1', s) == Leading(0, Indices(abc, s))
  {
    if s != "" {
      assert IsOver(abc, s[1..]) && Indices(abc, s)[1..] == Indices(abc, s[1..]);
      OnesAreZeros(abc, s[1..]);
    }
  }

  /** The first loop: the number a string stands for, or nothing if a character is not in the alphabet. */
  method Accumulate(abc: string, value: string) returns (r: Option<nat>)
    ensures r.Some? <==> IsOver(abc, value)
    ensures r.Some? ==> r.value == Value(58, Indices(abc, value))
  {
    var number := 0;
    for i := 0 to |value|
      invariant IsOver(abc, value[..i]) && number == Value(58, Indices(abc, value[..i]))
    {
      var index := Find(abc, value[i]);
      if index < 0 {
        assert value[i] !in abc;
        return None;
      }
      number := number * 58 + index;
      NextDigit(abc, value, i);
    }
    assert value[..|value|] == value;
    r := Some(number);
  }

  lemma {:induction false} NextDigit(abc: string, s: string, i: nat)
    requires i < |s| && IsOver(abc, s[..i]) && s[i] in abc
    ensures IsOver(abc, s[..i + 1])
    ensures Value(58, Indices(abc, s[..i + 1])) == Value(58, Indices(abc, s[..i])) * 58 + Find(abc, s[i])
  {
    assert Indices(abc, s[..i + 1])[..i] == Indices(abc, s[..i]);
  }

  method DecodeWith(abc: string, value: string) returns (r: Option<seq<nat>>)
    requires abc != "" && abc[0] == '1'
    ensures r == DecodeOver(abc, value)
  {
    var number := Accumulate(abc, value);
    if number.None? {
      return None;
    }
    var n := number.value;
    var body := if n != 0 then ToBytes(n, (BitLength(n) + 7) / 8) else [];
    ToBytesIsShortest(n);
    OnesAreZeros(abc, value);
    r := Some(Copies(0, Leading('1', value)) + body);
  }

  method Base58Decode(value: string) returns (r: Option<seq<nat>>)
    ensures r.None? <==> !IsBase58(value)
    ensures r == Decode(value)
  {
    r := DecodeWith(ALPHABET, value);
  }
}
