/**
 The store of pending financial mutations: a fingerprint of the request keeps one idempotency key
 until the request is known to be complete.

 Texts are sequences of UTF-16 code units. The store holds the JSON text of the entries; since only
 this program writes it, the model keeps the entries and computes the length of their JSON text.
 */
module Idempotency {
  import opened Prelude

  type Unit = n: nat | n < 0x1_0000

  type Text = seq<Unit>

  datatype Entry = Entry(f: Text, k: Text, t: nat)

  const CAPACITY := 24
  const LIMIT := 131072
  const MAX_FINGERPRINT := 4096
  const MAX_SAFE := 9007199254740991

  //// What counts as a valid entry

  predicate IsHex(u: Unit) {
    48 <= u <= 57 || 65 <= u <= 70 || 97 <= u <= 102
  }

  /** Equal letters, whatever their case. */
  predicate IsLetter(u: Unit, lower: char) {
    u == lower as int || ('a' <= lower <= 'z' && u == lower as int - 32)
  }

  predicate AllHex(k: Text, from: nat, to: nat)
    requires from <= to <= |k|
  {
    forall i | from <= i < to :: IsHex(k[i])
  }

  const PREFIX := "financial-"
  const DASH: Unit := 45

  /** "financial-" and a version 1 to 5 UUID, in any case. */
  predicate IsKey(k: Text) {
    && |k| == 46
    && (forall i | 0 <= i < 10 :: IsLetter(k[i], PREFIX[i]))
    && AllHex(k, 10, 18) && k[18] == DASH
    && AllHex(k, 19, 23) && k[23] == DASH
    && 49 <= k[24] <= 53 && AllHex(k, 25, 28) && k[28] == DASH
    && (56 <= k[29] <= 57 || 97 <= k[29] <= 98 || 65 <= k[29] <= 66) && AllHex(k, 30, 33) && k[33] == DASH
    && AllHex(k, 34, 46)
  }

  /** `H` is a hexadecimal digit, `V` a version, `N` a variant; anything else is a letter in any case, or itself. */
  function KeyPattern(): (p: string)
    ensures |p| == 46
    ensures forall i | 0 <= i < 10 :: p[i] == "financial-"[i]
    ensures p[18] == p[23] == p[28] == p[33] == '-' && p[24] == 'V' && p[29] == 'N'
    ensures forall i | 10 <= i < 46 && i !in {18, 23, 24, 28, 29, 33} :: p[i] == 'H'
  {
    "financial-" + Copies('H', 8) + "-" + Copies('H', 4) + "-V" + Copies('H', 3) + "-N" + Copies('H', 3)
    + "-" + Copies('H', 12)
  }

  predicate Matches(p: char, u: Unit) {
    match p
    case 'H' => '0' as int <= u <= '9' as int || 'a' as int <= u <= 'f' as int || 'A' as int <= u <= 'F' as int
    case 'V' => '1' as int <= u <= '5' as int
    case 'N' => u in {'8' as int, '9' as int, 'a' as int, 'b' as int, 'A' as int, 'B' as int}
    case _ => u == p as int || ('a' <= p <= 'z' && u == p as int - 32)
  }

  ghost predicate MatchesPattern(p: string, k: Text)
    requires |p| == 46
  {
    |k| == 46 && forall i | 0 <= i < 46 :: Matches(p[i], k[i])
  }

  lemma {:induction false} LettersMatch(i: nat, u: Unit)
    requires i < 10
    ensures Matches("financial-"[i], u) <==> IsLetter(u, PREFIX[i])
  {
    assert 'a' <= PREFIX[i] <= 'z' || PREFIX[i] == '-';
  }

  lemma {:induction false} KeysMatch(p: string, k: Text)
    requires p == KeyPattern() && IsKey(k)
    ensures MatchesPattern(p, k)
  {
    forall i | 0 <= i < 46
      ensures Matches(p[i], k[i])
    {
      if i < 10 {
        LettersMatch(i, k[i]);
      }
    }
  }

  lemma {:induction false} MatchesAreKeys(p: string, k: Text)
    requires p == KeyPattern() && MatchesPattern(p, k)
    ensures IsKey(k)
  {
    forall i | 0 <= i < 46
      ensures i < 10 ==> IsLetter(k[i], PREFIX[i])
      ensures i >= 10 && i !in {18, 23, 24, 28, 29, 33} ==> IsHex(k[i])
    {
      assert Matches(p[i], k[i]);
      if i < 10 {
        LettersMatch(i, k[i]);
      }
    }
    assert Matches(p[18], k[18]) && Matches(p[23], k[23]) && Matches(p[24], k[24]);
    assert Matches(p[28], k[28]) && Matches(p[29], k[29]) && Matches(p[33], k[33]);
  }

  /** A key is a text that matches the pattern character by character. */
  lemma {:induction false} KeysMatchPattern(k: Text)
    ensures IsKey(k) <==> MatchesPattern(KeyPattern(), k)
  {
    if IsKey(k) {
      KeysMatch(KeyPattern(), k);
    }
    if MatchesPattern(KeyPattern(), k) {
      MatchesAreKeys(KeyPattern(), k);
    }
  }

  /** What `crypto.randomUUID` returns: lower-case hexadecimal digits in five groups, version 4. */
  predicate IsRandomUuid(u: Text) {
    && |u| == 36
    && u[8] == u[13] == u[18] == u[23] == 45
    && u[14] == '4' as int
    && u[19] in {'8' as int, '9' as int, 'a' as int, 'b' as int}
    && forall i | 0 <= i < 36 && i !in {8, 13, 18, 23} ::
         '0' as int <= u[i] <= '9' as int || 'a' as int <= u[i] <= 'f' as int
  }

  function Units(s: string): (t: Text)
    requires forall i | 0 <= i < |s| :: s[i] as int < 128
    ensures |t| == |s| && forall i | 0 <= i < |s| :: t[i] == s[i] as int
  {
    seq(|s|, i requires 0 <= i < |s| => s[i] as int)
  }

  /** Every key that is created by default passes the test for keys. */
  lemma {:induction false} RandomKeysAreKeys(u: Text)
    requires IsRandomUuid(u)
    ensures IsKey(Units("financial-") + u)
  {
    var k := Units("financial-") + u;
    assert forall i | 10 <= i < 46 :: k[i] == u[i - 10];
  }

  predicate IsFingerprint(f: Text) {
    0 < |f| <= MAX_FINGERPRINT
  }

  predicate IsValid(e: Entry) {
    IsFingerprint(e.f) && IsKey(e.k) && e.t <= MAX_SAFE
  }

  //// The length of the JSON text

  predicate IsHigh(u: Unit) {
    0xd800 <= u < 0xdc00
  }

  predicate IsLow(u: Unit) {
    0xdc00 <= u < 0xe000
  }

  /** The length of a string's JSON form, without its quotes. */
  function EscapedLength(s: Text): nat {
    if s == [] then 0
    else if |s| > 1 && IsHigh(s[0]) && IsLow(s[1]) then 2 + EscapedLength(s[2..])
    else UnitLength(s[0]) + EscapedLength(s[1..])
  }

  /** Two for quote, backslash and \b \t \n \f \r, six for other control characters and lone surrogates. */
  function UnitLength(u: Unit): nat {
    if u == 34 || u == 92 || 8 <= u <= 10 || u == 12 || u == 13 then 2
    else if u < 32 || IsHigh(u) || IsLow(u) then 6
    else 1
  }

  function DecimalLength(n: nat): nat {
    if n < 10 then 1 else 1 + DecimalLength(n / 10)
  }

  /** {"f":"…","k":"…","t":…} */
  function EntryLength(e: Entry): nat {
    20 + EscapedLength(e.f) + EscapedLength(e.k) + DecimalLength(e.t)
  }

  /** The entries with a comma after each. */
  function ItemsLength(es: seq<Entry>): nat {
    if es == [] then 0 else ItemsLength(es[..|es| - 1]) + EntryLength(es[|es| - 1]) + 1
  }

  /** The brackets, and one comma less than entries. */
  function JsonLength(es: seq<Entry>): nat {
    if es == [] then 2 else ItemsLength(es) + 1
  }

  //// The JSON text itself

  function HexDigit(d: nat): Unit
    requires d < 16
  {
    if d < 10 then 48 + d else 87 + d
  }

  /** How JSON writes one code unit of a string. */
  function Escape(u: Unit): Text {
    if u == 34 || u == 92 then [92, u]
    else if u == 8 then [92, 'b' as int]
    else if u == 9 then [92, 't' as int]
    else if u == 10 then [92, 'n' as int]
    else if u == 12 then [92, 'f' as int]
    else if u == 13 then [92, 'r' as int]
    else if u < 32 || IsHigh(u) || IsLow(u) then
      [92, 'u' as int, HexDigit(u / 4096 % 16), HexDigit(u / 256 % 16), HexDigit(u / 16 % 16), HexDigit(u % 16)]
    else [u]
  }

  function Escaped(s: Text): Text {
    if s == [] then []
    else if |s| > 1 && IsHigh(s[0]) && IsLow(s[1]) then s[..2] + Escaped(s[2..])
    else Escape(s[0]) + Escaped(s[1..])
  }

  function Decimal(n: nat): Text {
    if n < 10 then [48 + n] else Decimal(n / 10) + [48 + n % 10]
  }

  function EntryText(e: Entry): Text {
    Units("{\"f\":\"") + Escaped(e.f) + Units("\",\"k\":\"") + Escaped(e.k) + Units("\",\"t\":") + Decimal(e.t) + Units("}")
  }

  function ItemsText(es: seq<Entry>): Text {
    if es == [] then []
    else if |es| == 1 then EntryText(es[0])
    else ItemsText(es[..|es| - 1]) + Units(",") + EntryText(es[|es| - 1])
  }

  function JsonText(es: seq<Entry>): Text {
    Units("[") + ItemsText(es) + Units("]")
  }

  lemma {:induction false} EscapedHasLength(s: Text)
    ensures |Escaped(s)| == EscapedLength(s)
  {
    if s != [] {
      if |s| > 1 && IsHigh(s[0]) && IsLow(s[1]) {
        EscapedHasLength(s[2..]);
      } else {
        EscapedHasLength(s[1..]);
      }
    }
  }

  lemma {:induction false} DecimalHasLength(n: nat)
    ensures |Decimal(n)| == DecimalLength(n)
  {
    if n >= 10 {
      DecimalHasLength(n / 10);
    }
  }

  lemma {:induction false} EntryHasLength(e: Entry)
    ensures |EntryText(e)| == EntryLength(e)
  {
    EscapedHasLength(e.f);
    EscapedHasLength(e.k);
    DecimalHasLength(e.t);
  }

  lemma {:induction false} ItemsHaveLength(es: seq<Entry>)
    requires es != []
    ensures |ItemsText(es)| + 1 == ItemsLength(es)
  {
    var n := |es| - 1;
    EntryHasLength(es[n]);
    if n > 0 {
      ItemsHaveLength(es[..n]);
    } else {
      assert es[..0] == [];
    }
  }

  /** The length that is computed is the length of the text that `JSON.stringify` writes. */
  lemma {:induction false} JsonHasLength(es: seq<Entry>)
    ensures |JsonText(es)| == JsonLength(es)
  {
    if es != [] {
      ItemsHaveLength(es);
    }
  }

  //// Reading and writing

  function Last(es: seq<Entry>): seq<Entry> {
    if |es| > CAPACITY then es[|es| - CAPACITY..] else es
  }

  /** What `read` makes of the stored entries. */
  function Readable(es: seq<Entry>): seq<Entry> {
    if JsonLength(es) > LIMIT || |es| > CAPACITY || exists i :: 0 <= i < |es| && !IsValid(es[i]) then [] else es
  }

  /** Stored entries are read back exactly when their text is at most 131072 long and they are at most 24 valid ones. */
  lemma {:induction false} ReadByRule(es: seq<Entry>)
    ensures var fine := && |JsonText(es)| <= 131072 && |es| <= 24
                        && forall i | 0 <= i < |es| ::
                             0 < |es[i].f| <= 4096 && IsKey(es[i].k) && es[i].t <= 9007199254740991;
            Readable(es) == if fine then es else []
  {
    JsonHasLength(es);
  }

  function Find(es: seq<Entry>, f: Text): Option<Text> {
    if es == [] then None else if es[0].f == f then Some(es[0].k) else Find(es[1..], f)
  }

  function Without(es: seq<Entry>, f: Text): seq<Entry> {
    if es == [] then []
    else Without(es[..|es| - 1], f) + if es[|es| - 1].f == f then [] else [es[|es| - 1]]
  }

  //// What a call does

  datatype Op = Pending(f: Text, created: Text, now: nat) | Completed(f: Text)

  /** The entries after one call. */
  function Step(es: seq<Entry>, op: Op): seq<Entry> {
    match op
    case Completed(f) => Without(Readable(es), f)
    case Pending(f, created, now) =>
      if !IsFingerprint(f) then es
      else if Find(Readable(es), f).Some? || !IsKey(created) then Readable(es)
      else Last(Readable(es) + [Entry(f, created, now)])
  }

  /** The key a call returns, if it returns one. */
  function Reply(es: seq<Entry>, op: Op): Option<Text> {
    if op.Completed? || !IsFingerprint(op.f) then None
    else if Find(Readable(es), op.f).Some? then Find(Readable(es), op.f)
    else if IsKey(op.created) then Some(op.created)
    else None
  }

  //// The program

  datatype Error = InvalidFingerprint | InvalidKey

  class Storage {
    var item: Option<seq<Entry>>

    constructor ()
      ensures item == None
    {
      item := None;
    }

    function Entries(): seq<Entry>
      reads this
    {
      if item.None? then [] else item.value
    }

    method Read() returns (es: seq<Entry>)
      modifies this
      ensures es == Readable(old(Entries())) == Entries()
    {
      if item.None? {
        return [];
      }
      es := item.value;
      if JsonLength(es) > LIMIT || |es| > CAPACITY || exists i :: 0 <= i < |es| && !IsValid(es[i]) {
        item := None;
        es := [];
      }
    }

    method Write(es: seq<Entry>)
      modifies this
      ensures Entries() == Last(es) && (es == [] <==> item.None?)
    {
      if es == [] {
        item := None;
      } else {
        item := Some(Last(es));
      }
    }
  }

  /** `created` is the key that `create` would return, `now` the clock. */
  method PendingKey(storage: Storage?, fingerprint: Text, created: Text, now: nat) returns (r: Result<Text, Error>)
    modifies storage
    ensures r == Err(InvalidFingerprint) <==> |fingerprint| == 0 || |fingerprint| > 4096
    ensures !IsFingerprint(fingerprint) ==> r == Err(InvalidFingerprint) && (storage != null ==> unchanged(storage))
    ensures IsFingerprint(fingerprint) && storage == null ==> r == Ok(created)
    ensures storage != null ==>
              var es, op := old(storage.Entries()), Pending(fingerprint, created, now);
              && storage.Entries() == Step(es, op)
              && (r.Ok? <==> Reply(es, op).Some?)
              && (r.Ok? ==> r.value == Reply(es, op).value)
    ensures r == Err(InvalidKey) ==> storage != null && !IsKey(created)
  {
    if |fingerprint| == 0 || |fingerprint| > MAX_FINGERPRINT {
      return Err(InvalidFingerprint);
    }
    if storage == null {
      return Ok(created);
    }
    var es := storage.Read();
    var existing := Find(es, fingerprint);
    if existing.Some? {
      return Ok(existing.value);
    }
    if !IsKey(created) {
      return Err(InvalidKey);
    }
    storage.Write(es + [Entry(fingerprint, created, now)]);
    r := Ok(created);
  }

  method Complete(storage: Storage?, fingerprint: Text)
    modifies storage
    ensures storage != null ==> storage.Entries() == Step(old(storage.Entries()), Completed(fingerprint))
  {
    if storage != null {
      var es := storage.Read();
      WithoutIsShorter(es, fingerprint);
      storage.Write(Without(es, fingerprint));
    }
  }

  lemma {:induction false} WithoutIsShorter(es: seq<Entry>, f: Text)
    ensures |Without(es, f)| <= |es|
  {
    if es != [] {
      WithoutIsShorter(es[..|es| - 1], f);
    }
  }
}
