/**
 The CRC-32 of the workbook writer: a cached table of 256 entries and one lookup per byte, against
 the shift register of section 8 of RFC 1952, fed with one message bit at a time.
 */
module Crc32 {
  import opened Prelude

  //// Shift registers over any type of word

  /** `f` applied `n` times. */
  function Times<T>(f: T -> T, v: T, n: nat): T {
    if n == 0 then v else f(Times(f, v, n - 1))
  }

  /** A register that takes one input per step: the input is xored in, then the register shifts. */
  function Run<T>(f: T -> T, xor: (T, T) -> T, r: T, inputs: seq<T>): T {
    if inputs == [] then r
    else f(xor(Run(f, xor, r, inputs[..|inputs| - 1]), inputs[|inputs| - 1]))
  }

  /** `r` with all of `vs` xored in. */
  function XorAll<T>(xor: (T, T) -> T, r: T, vs: seq<T>): T {
    if vs == [] then r else xor(XorAll(xor, r, vs[..|vs| - 1]), vs[|vs| - 1])
  }

  ghost predicate Linear<T(!new)>(f: T -> T, xor: (T, T) -> T) {
    forall a, b :: f(xor(a, b)) == xor(f(a), f(b))
  }

  lemma {:induction false} TimesXor<T(!new)>(f: T -> T, xor: (T, T) -> T, a: T, b: T, n: nat)
    requires Linear(f, xor)
    ensures Times(f, xor(a, b), n) == xor(Times(f, a, n), Times(f, b, n))
  {
    if n > 0 {
      TimesXor(f, xor, a, b, n - 1);
    }
  }

  /** Feeding inputs step by step is xoring them in beforehand, each at the place from which it reaches the low end in time. */
  lemma {:induction false} RunIsTimes<T(!new)>(f: T -> T, xor: (T, T) -> T, r: T, inputs: seq<T>, places: seq<T>)
    requires Linear(f, xor)
    requires |places| == |inputs|
    requires forall i | 0 <= i < |places| :: Times(f, places[i], i) == inputs[i]
    ensures Run(f, xor, r, inputs) == Times(f, XorAll(xor, r, places), |inputs|)
  {
    if inputs != [] {
      var n := |inputs| - 1;
      RunIsTimes(f, xor, r, inputs[..n], places[..n]);
      TimesXor(f, xor, XorAll(xor, r, places[..n]), places[n], n);
    }
  }

  lemma {:induction false} RunConcat<T(!new)>(f: T -> T, xor: (T, T) -> T, r: T, a: seq<T>, b: seq<T>)
    ensures Run(f, xor, r, a + b) == Run(f, xor, Run(f, xor, r, a), b)
    decreases |b|
  {
    if b == [] {
      assert a + b == a;
    } else {
      var n := |b| - 1;
      assert (a + b)[..|a + b| - 1] == a + b[..n];
      RunConcat(f, xor, r, a, b[..n]);
    }
  }

  //// Words of 32 bits, the lowest bit first

  const WIDTH := 32
  const BYTE := 8

  type Word = w: seq<bool> | |w| == WIDTH witness seq(WIDTH, _ => false)

  /** The low `len` bits of a number. */
  function Bits(n: nat, len: nat): (w: seq<bool>)
    ensures |w| == len
  {
    if len == 0 then [] else [n % 2 == 1] + Bits(n / 2, len - 1)
  }

  function Number(w: seq<bool>): nat {
    if w == [] then 0 else (if w[0] then 1 else 0) + 2 * Number(w[1..])
  }

  function ToWord(n: nat): Word {
    Bits(n, WIDTH)
  }

  function Xor(a: Word, b: Word): Word {
    seq(WIDTH, i requires 0 <= i < WIDTH => a[i] != b[i])
  }

  /** The unsigned right shift. */
  function Down(v: Word, n: nat): Word {
    seq(WIDTH, i requires 0 <= i < WIDTH => i + n < WIDTH && v[i + n])
  }

  const POLYNOMIAL_NUMBER: nat := 0xedb88320
  const POLYNOMIAL: Word := ToWord(POLYNOMIAL_NUMBER)
  const ONES: Word := seq(WIDTH, _ => true)

  /** The polynomial is x^32 plus these powers of x; the register is reflected, so power k is bit 31 - k. */
  lemma PolynomialPowers()
    ensures POLYNOMIAL_NUMBER
         == Power(2, 31 - 26) + Power(2, 31 - 23) + Power(2, 31 - 22) + Power(2, 31 - 16) + Power(2, 31 - 12)
          + Power(2, 31 - 11) + Power(2, 31 - 10)
          + Power(2, 31 - 8) + Power(2, 31 - 7) + Power(2, 31 - 5) + Power(2, 31 - 4)
          + Power(2, 31 - 2) + Power(2, 31 - 1) + Power(2, 31 - 0)
    ensures WIDTH == 32 && forall i | 0 <= i < 32 :: ONES[i]
  {
    assert Power(2, 8) == 256 && Power(2, 16) == 0x1_0000 && Power(2, 24) == 0x100_0000;
  }

  /** A word is the number whose binary digits it holds. */
  lemma {:induction false} NumberOfBits(n: nat, len: nat)
    requires n < Power(2, len)
    ensures Number(Bits(n, len)) == n
  {
    if len > 0 {
      NumberOfBits(n / 2, len - 1);
      assert Bits(n, len)[1..] == Bits(n / 2, len - 1);
    }
  }

  /** The word with bit `place` alone, or no bit at all. */
  function Single(place: nat, on: bool): Word {
    seq(WIDTH, i => i == place && on)
  }

  //// The reference

  /** One shift of a reflected register: the polynomial is xored in when a one leaves. */
  function ShiftBy(polynomial: Word, v: Word): Word {
    if v[0] then Xor(polynomial, Down(v, 1)) else Down(v, 1)
  }

  function Shift(v: Word): Word {
    ShiftBy(POLYNOMIAL, v)
  }

  /** The bits of a byte in the order of transmission, the lowest first, each at the low end of a word. */
  function BitsOf(b: Byte): (inputs: seq<Word>)
    ensures |inputs| == 8
  {
    seq(8, i requires 0 <= i < 8 => Single(0, Bits(b, 8)[i]))
  }

  function MessageBits(data: seq<Byte>): seq<Word> {
    if data == [] then [] else MessageBits(data[..|data| - 1]) + BitsOf(data[|data| - 1])
  }

  /** The CRC-32 of a message: all ones at the start, one shift per message bit, complemented at the end. */
  function Reference(data: seq<Byte>): nat {
    Number(Xor(Run(Shift, Xor, ONES, MessageBits(data)), ONES))
  }

  //// What the proof needs of the register

  /** A register step that is linear and only moves the word down when the bit that leaves is zero. */
  ghost predicate IsRegister(f: Word -> Word) {
    && Linear(f, Xor)
    && forall v: Word | !v[0] :: f(v) == Down(v, 1)
  }

  lemma {:induction false} ShiftByXor(p: Word, a: Word, b: Word)
    ensures ShiftBy(p, Xor(a, b)) == Xor(ShiftBy(p, a), ShiftBy(p, b))
  {
    var l, r := ShiftBy(p, Xor(a, b)), Xor(ShiftBy(p, a), ShiftBy(p, b));
    forall i | 0 <= i < WIDTH
      ensures l[i] == r[i]
    {
    }
  }

  lemma ShiftIsRegister()
    ensures IsRegister(Shift)
  {
    forall a, b
      ensures Shift(Xor(a, b)) == Xor(Shift(a), Shift(b))
    {
      ShiftByXor(POLYNOMIAL, a, b);
    }
  }

  /** While the low bits are empty, the register only moves down. */
  lemma {:induction false} EmptyLowMoves(f: Word -> Word, v: Word, n: nat)
    requires IsRegister(f)
    requires n <= BYTE && forall i | 0 <= i < n :: !v[i]
    ensures Times(f, v, n) == Down(v, n)
  {
    if n > 0 {
      EmptyLowMoves(f, v, n - 1);
      assert Down(Down(v, n - 1), 1) == Down(v, n);
    } else {
      assert Down(v, 0) == v;
    }
  }

  //// Eight bits at a time

  /** The bits of a byte, each at the place where it stands. */
  function PlacesOf(b: Byte): (places: seq<Word>)
    ensures |places| == 8
  {
    seq(8, i requires 0 <= i < 8 => Single(i, Bits(b, 8)[i]))
  }

  lemma {:induction false} ByteAsPlaces(r: Word, b: Byte, n: nat)
    requires n <= 8
    ensures var w := XorAll(Xor, r, PlacesOf(b)[..n]);
            forall i | 0 <= i < WIDTH :: w[i] == (r[i] != (i < n && Bits(b, 8)[i]))
  {
    if n > 0 {
      ByteAsPlaces(r, b, n - 1);
      assert PlacesOf(b)[..n][..n - 1] == PlacesOf(b)[..n - 1];
    }
  }

  /** A number below 2^len has no bits from number `len` on. */
  lemma {:induction false} BitsAgree(n: nat, len: nat, wide: nat)
    requires len <= wide && n < Power(2, len)
    ensures forall i | 0 <= i < wide :: Bits(n, wide)[i] == (i < len && Bits(n, len)[i])
    decreases wide
  {
    if wide > 0 {
      BitsAgree(n / 2, if len == 0 then 0 else len - 1, wide - 1);
    }
  }

  lemma {:induction false} ByteXored(r: Word, b: Byte)
    ensures XorAll(Xor, r, PlacesOf(b)) == Xor(r, ToWord(b))
  {
    ByteAsPlaces(r, b, 8);
    assert PlacesOf(b)[..8] == PlacesOf(b);
    BitsAgree(b, 8, WIDTH);
  }

  /** One byte of the message: eight steps of the register with the byte xored into its low end. */
  lemma {:induction false} FeedByte(f: Word -> Word, r: Word, b: Byte)
    requires IsRegister(f)
    ensures Run(f, Xor, r, BitsOf(b)) == Times(f, Xor(r, ToWord(b)), BYTE)
  {
    forall i | 0 <= i < BYTE
      ensures Times(f, PlacesOf(b)[i], i) == BitsOf(b)[i]
    {
      EmptyLowMoves(f, PlacesOf(b)[i], i);
      assert Down(PlacesOf(b)[i], i) == BitsOf(b)[i];
    }
    RunIsTimes(f, Xor, r, BitsOf(b), PlacesOf(b));
    ByteXored(r, b);
  }

  //// The table

  /** The words `v & 0xff` and `v & ~0xff`. */
  function Low(v: Word): Word {
    seq(WIDTH, i requires 0 <= i < WIDTH => i < 8 && v[i])
  }

  function High(v: Word): Word {
    seq(WIDTH, i requires 0 <= i < WIDTH => i >= 8 && v[i])
  }

  lemma {:induction false} LowAndHigh(v: Word)
    ensures v == Xor(Low(v), High(v))
    ensures Down(High(v), 8) == Down(v, 8)
    ensures forall i | 0 <= i < 8 :: !High(v)[i]
  {
  }

  /** Eight steps are a lookup for the low byte and a move for the rest. */
  lemma {:induction false} LookUp(f: Word -> Word, v: Word)
    requires IsRegister(f)
    ensures Times(f, v, BYTE) == Xor(Times(f, Low(v), BYTE), Down(v, BYTE))
  {
    LowAndHigh(v);
    TimesXor(f, Xor, Low(v), High(v), BYTE);
    EmptyLowMoves(f, High(v), BYTE);
  }

  lemma {:induction false} BitsOfNumber(w: seq<bool>)
    ensures Number(w) < Power(2, |w|)
    ensures Bits(Number(w), |w|) == w
  {
    if w != [] {
      BitsOfNumber(w[1..]);
    }
  }

  lemma {:induction false} LowIndex(v: Word)
    ensures Number(v[..8]) < SIZE
    ensures ToWord(Number(v[..8])) == Low(v)
  {
    BitsOfNumber(v[..8]);
    BitsAgree(Number(v[..8]), 8, WIDTH);
  }

  lemma {:induction false} ByteLeavesHighAlone(r: Word, b: Byte)
    ensures Down(Xor(r, ToWord(b)), 8) == Down(r, 8)
  {
    BitsAgree(b, 8, WIDTH);
  }

  const SIZE := 256

  /** What eight steps make of each of the first `n` bytes alone in the register. */
  function Table(f: Word -> Word, n: nat): (t: seq<Word>)
    ensures |t| == n
  {
    if n == 0 then [] else Table(f, n - 1) + [Times(f, ToWord(n - 1), BYTE)]
  }

  lemma {:induction false} NextEntry(f: Word -> Word, t: seq<Word>, index: nat, value: Word)
    requires t == Table(f, index) && value == Times(f, ToWord(index), BYTE)
    ensures t + [value] == Table(f, index + 1)
  {
  }

  lemma {:induction false} TableAt(f: Word -> Word, n: nat, i: nat)
    requires i < n
    ensures Table(f, n)[i] == Times(f, ToWord(i), BYTE)
  {
    if i < n - 1 {
      TableAt(f, n - 1, i);
    }
  }

  /** The table-driven step for one message byte. */
  function Step(table: seq<Word>, value: Word, b: Byte): Word
    requires |table| == SIZE
  {
    LowIndex(Xor(value, ToWord(b)));
    Xor(table[Number(Xor(value, ToWord(b))[..8])], Down(value, 8))
  }

  lemma {:induction false} StepFeedsByte(f: Word -> Word, r: Word, b: Byte)
    requires IsRegister(f)
    ensures Step(Table(f, SIZE), r, b) == Run(f, Xor, r, BitsOf(b))
  {
    var v := Xor(r, ToWord(b));
    FeedByte(f, r, b);
    LookUp(f, v);
    LowIndex(v);
    TableAt(f, SIZE, Number(v[..8]));
    ByteLeavesHighAlone(r, b);
  }

  lemma {:induction false} NextByte(f: Word -> Word, start: Word, data: seq<Byte>, k: nat)
    requires IsRegister(f) && k < |data|
    ensures Run(f, Xor, start, MessageBits(data[..k + 1]))
         == Step(Table(f, SIZE), Run(f, Xor, start, MessageBits(data[..k])), data[k])
  {
    assert data[..k + 1][..k] == data[..k];
    RunConcat(f, Xor, start, MessageBits(data[..k]), BitsOf(data[k]));
    StepFeedsByte(f, Run(f, Xor, start, MessageBits(data[..k])), data[k]);
  }

  //// The program

  /** The writer's checksum, with the table it builds on first use. */
  class Checksum {
    var table: array?<Word>

    ghost predicate Valid()
      reads this, table
    {
      table != null ==> table[..] == Table(Shift, SIZE)
    }

    constructor ()
      ensures Valid() && table == null
    {
      table := null;
    }

    method BuildEntry(index: nat) returns (value: Word)
      ensures value == Times(Shift, ToWord(index), BYTE)
    {
      value := ToWord(index);
      for bit := 0 to BYTE
        invariant value == Times(Shift, ToWord(index), bit)
      {
        value := if value[0] then Xor(POLYNOMIAL, Down(value, 1)) else Down(value, 1);
      }
    }

    /** Write the next entry behind the ones that are done. */
    static method Put(t: array<Word>, index: nat, value: Word, ghost done: seq<Word>)
      requires index < t.Length && t[..index] == done
      modifies t
      ensures t[..index + 1] == done + [value]
    {
      t[index] := value;
      assert t[..index] == done;
    }

    method BuildTable() returns (t: array<Word>)
      ensures fresh(t) && t[..] == Table(Shift, SIZE)
    {
      t := new Word[SIZE];
      for index := 0 to SIZE
        invariant t[..index] == Table(Shift, index)
      {
        ghost var done := t[..index];
        var value := BuildEntry(index);
        Put(t, index, value, done);
        NextEntry(Shift, done, index, value);
      }
      assert t[..] == t[..SIZE];
    }

    method Compute(data: seq<Byte>) returns (crc: nat)
      requires Valid()
      modifies this
      ensures Valid() && (old(table) != null ==> table == old(table)) && (old(table) == null ==> fresh(table))
      ensures crc == Reference(data) && crc < Power(2, WIDTH)
    {
      if table == null {
        table := BuildTable();
      }
      crc := Checked(data, table);
    }

    static method Checked(data: seq<Byte>, table: array<Word>) returns (crc: nat)
      requires table[..] == Table(Shift, SIZE)
      ensures crc == Reference(data) && crc < Power(2, WIDTH)
    {
      ShiftIsRegister();
      var value: Word := ONES;
      for k := 0 to |data|
        invariant value == Run(Shift, Xor, ONES, MessageBits(data[..k]))
      {
        NextByte(Shift, ONES, data, k);
        value := Step(table[..], value, data[k]);
      }
      assert data[..|data|] == data;
      crc := Number(Xor(value, ONES));
      BitsOfNumber(Xor(value, ONES));
    }
  }
}
