/**
 The uncompressed ZIP archive of the workbook writer, and a reader that starts from the end record
 and follows the offsets (sections 4.3.7, 4.3.12 and 4.3.16 of PKWARE APPNOTE.TXT).

 Names and texts are already encoded as bytes.
 */
module Zip {
  import opened Prelude
  import opened Crc32

  datatype Entry = Entry(name: seq<Byte>, data: seq<Byte>)

  //// Little-endian fields, cut off at their width

  function Le16(n: nat): (s: seq<Byte>)
    ensures |s| == 2
  {
    [n % 256, n / 256 % 256]
  }

  function Le32(n: nat): (s: seq<Byte>)
    ensures |s| == 4
  {
    [n % 256, n / 256 % 256, n / 256 / 256 % 256, n / 256 / 256 / 256 % 256]
  }

  function U16(s: seq<Byte>, i: nat): nat
    requires i + 2 <= |s|
  {
    s[i] as int + 256 * s[i + 1] as int
  }

  function U32(s: seq<Byte>, i: nat): nat
    requires i + 4 <= |s|
  {
    s[i] as int + 256 * (s[i + 1] as int + 256 * (s[i + 2] as int + 256 * s[i + 3] as int))
  }

  const LIMIT16 := 0x1_0000
  const LIMIT32 := 0x1_0000_0000

  lemma {:induction false} Le16RoundTrip(n: nat)
    ensures U16(Le16(n), 0) == n % LIMIT16
  {
    Remainder16(n, U16(Le16(n), 0), n / 256 / 256);
  }

  lemma {:induction false} Le32RoundTrip(n: nat)
    ensures U32(Le32(n), 0) == n % LIMIT32
  {
    var a := n / 256;
    var b := a / 256;
    var c := b / 256;
    assert n == n % 256 + 256 * (a % 256 + 256 * (b % 256 + 256 * (c % 256 + 256 * (c / 256))));
    Remainder32(n, U32(Le32(n), 0), c / 256);
  }

  lemma {:induction false} Remainder16(n: nat, r: nat, q: nat)
    requires n == r + 0x1_0000 * q && r < 0x1_0000
    ensures n % LIMIT16 == r
  {
  }

  lemma {:induction false} Remainder32(n: nat, r: nat, q: nat)
    requires n == r + 0x1_0000_0000 * q && r < 0x1_0000_0000
    ensures n % LIMIT32 == r
  {
  }

  //// The three kinds of record

  const LOCAL := 0x04034b50
  const CENTRAL := 0x02014b50
  const END := 0x06054b50

  /** Signature, version, flags, method and the fixed date of a local record. */
  function LocalStart(): (s: seq<Byte>)
    ensures |s| == 14
  {
    Le32(LOCAL) + Le16(20) + Le16(0x0800) + Le16(0) + Le16(0) + Le16(0x21)
  }

  /** The same of a central record. */
  function CentralStart(): (s: seq<Byte>)
    ensures |s| == 16
  {
    Le32(CENTRAL) + Le16(20) + Le16(20) + Le16(0x0800) + Le16(0) + Le16(0) + Le16(0x21)
  }

  /** Checksum, both sizes and the length of the name, which the two kinds of record share. */
  function Sizes(crc: nat, size: nat, nameSize: nat): (s: seq<Byte>)
    ensures |s| == 14
  {
    Le32(crc) + Le32(size) + Le32(size) + Le16(nameSize)
  }

  function LocalHead(crc: nat, size: nat, nameSize: nat): (s: seq<Byte>)
    ensures |s| == 30
  {
    LocalStart() + Sizes(crc, size, nameSize) + Le16(0)
  }

  function CentralHead(crc: nat, size: nat, nameSize: nat, offset: nat): (s: seq<Byte>)
    ensures |s| == 46
  {
    CentralStart() + Sizes(crc, size, nameSize)
    + (Le16(0) + Le16(0) + Le16(0) + Le16(0) + Le32(0)) + Le32(offset)
  }

  function EndRecord(count: nat, centralSize: nat, offset: nat): (s: seq<Byte>)
    ensures |s| == 22
  {
    Le32(END) + Le16(0) + Le16(0) + Le16(count) + Le16(count) + Le32(centralSize) + Le32(offset) + Le16(0)
  }

  function Local(e: Entry): (s: seq<Byte>)
    ensures |s| == 30 + |e.name| + |e.data|
  {
    LocalHead(Reference(e.data), |e.data|, |e.name|) + e.name + e.data
  }

  function Central(e: Entry, offset: nat): (s: seq<Byte>)
    ensures |s| == 46 + |e.name|
  {
    CentralHead(Reference(e.data), |e.data|, |e.name|, offset) + e.name
  }

  /** The local records of the entries; `local` makes one. */
  function LocalsOf(local: Entry -> seq<Byte>, es: seq<Entry>): seq<Byte> {
    if es == [] then [] else local(es[0]) + LocalsOf(local, es[1..])
  }

  /** The central records, each with the offset of its local record. */
  function CentralsOf(local: Entry -> seq<Byte>, central: (Entry, nat) -> seq<Byte>, es: seq<Entry>, offset: nat): seq<Byte> {
    if es == [] then []
    else central(es[0], offset) + CentralsOf(local, central, es[1..], offset + |local(es[0])|)
  }

  function Locals(es: seq<Entry>): seq<Byte> {
    LocalsOf(Local, es)
  }

  function Centrals(es: seq<Entry>, offset: nat): seq<Byte> {
    CentralsOf(Local, Central, es, offset)
  }

  function Archive(es: seq<Entry>): seq<Byte> {
    Locals(es) + Centrals(es, 0) + EndRecord(|es|, |Centrals(es, 0)|, |Locals(es)|)
  }

  /** The bounds of the 16 and 32 bit fields. */
  predicate Fits(es: seq<Entry>) {
    && |es| < LIMIT16
    && |Locals(es)| < LIMIT32
    && |Centrals(es, 0)| < LIMIT32
    && forall e | e in es :: |e.name| < LIMIT16 && |e.data| < LIMIT32
  }

  //// The reader

  datatype Item = Item(name: seq<Byte>, data: seq<Byte>, crc: nat)

  function ReadArchive(b: seq<Byte>): Option<seq<Item>> {
    if |b| < 22 then None
    else
      var end := b[|b| - 22..];
      var count, size, offset := U16(end, 10), U32(end, 12), U32(end, 16);
      if U32(end, 0) != END || U16(end, 4) != 0 || U16(end, 6) != 0 || U16(end, 8) != count || U16(end, 20) != 0 then None
      else if offset + size + 22 != |b| then None
      else ReadDirectory(b, b[offset..offset + size], count)
  }

  /** Whatever the reader recovers was announced by 16 and 32 bit fields. */
  predicate IsBounded(item: Item) {
    |item.name| < LIMIT16 && |item.data| < LIMIT32
  }

  /** The version needed to extract, the flags, and the time and date of the last change. */
  datatype About = About(version: nat, flags: nat, time: nat, date: nat)

  /** What only a central record says: the version that made it, the disk and the attributes. */
  datatype Origin = Origin(madeBy: nat, disk: nat, internalAttributes: nat, externalAttributes: nat)

  /** What the two kinds of record header say about an entry; `skip` counts the extra field and the comment. */
  datatype Head = Head(about: About, origin: Option<Origin>, nameSize: nat, skip: nat, crc: nat, size: nat, offset: nat)

  /** Version 2.0, names in UTF-8, and the first moment that the date format can write. */
  const ABOUT := About(20, 0x0800, 0, 0x21)
  const ORIGIN := Origin(20, 0, 0, 0)

  /** The fields around the method, which starts four bytes after `i`. */
  function ReadAbout(s: seq<Byte>, i: nat): About
    requires i + 10 <= |s|
  {
    About(U16(s, i), U16(s, i + 2), U16(s, i + 6), U16(s, i + 8))
  }

  function ReadCentralHead(s: seq<Byte>): (r: Option<Head>)
    requires |s| == 46
    ensures r.Some? ==> r.value.nameSize < LIMIT16 && r.value.size < LIMIT32
  {
    if U32(s, 0) != CENTRAL || U16(s, 10) != 0 || U32(s, 24) != U32(s, 20) then None
    else Some(Head(ReadAbout(s, 6), Some(Origin(U16(s, 4), U16(s, 34), U16(s, 36), U32(s, 38))),
                   U16(s, 28), U16(s, 30) + U16(s, 32), U32(s, 16), U32(s, 20), U32(s, 42)))
  }

  function ReadLocalHead(s: seq<Byte>): Option<Head>
    requires |s| == 30
  {
    if U32(s, 0) != LOCAL || U16(s, 8) != 0 || U32(s, 22) != U32(s, 18) then None
    else Some(Head(ReadAbout(s, 4), None, U16(s, 26), U16(s, 28), U32(s, 14), U32(s, 18), 0))
  }

  /** `count` central records, one after the other and nothing else. */
  function ReadDirectory(b: seq<Byte>, dir: seq<Byte>, count: nat): (r: Option<seq<Item>>)
    ensures r.Some? ==> |r.value| == count && forall i | 0 <= i < count :: IsBounded(r.value[i])
  {
    if count == 0 then if dir == [] then Some([]) else None
    else if |dir| < 46 then None
    else
      var head := ReadCentralHead(dir[..46]);
      if head.None? || |dir| < 46 + head.value.nameSize + head.value.skip then None
      else
        var h := head.value;
        var item := ReadLocal(b, h.offset, dir[46..46 + h.nameSize], h.crc, h.size);
        var rest := ReadDirectory(b, dir[46 + h.nameSize + h.skip..], count - 1);
        if item.None? || rest.None? then None else Some([item.value] + rest.value)
  }

  /** The stored entry at `offset`, which must repeat what the directory says and match its checksum. */
  function ReadLocal(b: seq<Byte>, offset: nat, name: seq<Byte>, crc: nat, size: nat): (r: Option<Item>)
    ensures r.Some? ==> r.value.name == name && |r.value.data| == size && r.value.crc == crc
  {
    if |b| < offset + 30 then None
    else
      var head := ReadLocalHead(b[offset..offset + 30]);
      if head.None? || head.value.crc != crc || head.value.size != size then None
      else ReadBody(b[offset + 30..], name, head.value.nameSize, head.value.skip, crc, size)
  }

  function ReadBody(body: seq<Byte>, name: seq<Byte>, nameSize: nat, skip: nat, crc: nat, size: nat): (r: Option<Item>)
    ensures r.Some? ==> r.value.name == name && |r.value.data| == size && r.value.crc == crc
  {
    if |body| < nameSize + skip + size || body[..nameSize] != name then None
    else
      var data := body[nameSize + skip..nameSize + skip + size];
      if Reference(data) != crc then None else Some(Item(name, data, crc))
  }

  function Items(es: seq<Entry>): seq<Item> {
    if es == [] then [] else [Item(es[0].name, es[0].data, Reference(es[0].data))] + Items(es[1..])
  }

  //// Every field is where the reader looks for it

  predicate AreSizes(s: seq<Byte>, crc: nat, size: nat, nameSize: nat) {
    |s| == 14 && U32(s, 0) == crc && U32(s, 4) == size && U32(s, 8) == size && U16(s, 12) == nameSize
  }

  lemma {:induction false} SizesFields(crc: nat, size: nat, nameSize: nat)
    requires crc < LIMIT32 && size < LIMIT32 && nameSize < LIMIT16
    ensures AreSizes(Sizes(crc, size, nameSize), crc, size, nameSize)
  {
    Le32RoundTrip(crc);
    Le32RoundTrip(size);
    Le16RoundTrip(nameSize);
  }

  lemma {:induction false} LocalFields(start: seq<Byte>, sizes: seq<Byte>, end: seq<Byte>, crc: nat, size: nat, nameSize: nat)
    requires |start| == 14 && U32(start, 0) == LOCAL && U16(start, 8) == 0 && ReadAbout(start, 4) == ABOUT
    requires AreSizes(sizes, crc, size, nameSize)
    requires |end| == 2 && U16(end, 0) == 0
    ensures ReadLocalHead(start + sizes + end) == Some(Head(ABOUT, None, nameSize, 0, crc, size, 0))
  {
  }

  lemma {:induction false} CentralFields(start: seq<Byte>, sizes: seq<Byte>, unset: seq<Byte>, last: seq<Byte>,
                      crc: nat, size: nat, nameSize: nat, offset: nat)
    requires |start| == 16 && U32(start, 0) == CENTRAL && U16(start, 10) == 0
    requires U16(start, 4) == ORIGIN.madeBy && ReadAbout(start, 6) == ABOUT
    requires AreSizes(sizes, crc, size, nameSize)
    requires |unset| == 12 && U16(unset, 0) == U16(unset, 2) == U16(unset, 4) == U16(unset, 6) == U32(unset, 8) == 0
    requires |last| == 4 && U32(last, 0) == offset
    ensures ReadCentralHead(start + sizes + unset + last) == Some(Head(ABOUT, Some(ORIGIN), nameSize, 0, crc, size, offset))
  {
  }

  lemma {:induction false} LocalHeadIsRead(crc: nat, size: nat, nameSize: nat)
    requires crc < LIMIT32 && size < LIMIT32 && nameSize < LIMIT16
    ensures ReadLocalHead(LocalHead(crc, size, nameSize)) == Some(Head(ABOUT, None, nameSize, 0, crc, size, 0))
  {
    SizesFields(crc, size, nameSize);
    LocalFields(LocalStart(), Sizes(crc, size, nameSize), Le16(0), crc, size, nameSize);
  }

  lemma {:induction false} CentralHeadIsRead(crc: nat, size: nat, nameSize: nat, offset: nat)
    requires crc < LIMIT32 && size < LIMIT32 && nameSize < LIMIT16 && offset < LIMIT32
    ensures ReadCentralHead(CentralHead(crc, size, nameSize, offset)) == Some(Head(ABOUT, Some(ORIGIN), nameSize, 0, crc, size, offset))
  {
    SizesFields(crc, size, nameSize);
    Le32RoundTrip(offset);
    var unset := Le16(0) + Le16(0) + Le16(0) + Le16(0) + Le32(0);
    CentralFields(CentralStart(), Sizes(crc, size, nameSize), unset, Le32(offset), crc, size, nameSize, offset);
  }

  predicate IsEnd(s: seq<Byte>, count: nat, size: nat, offset: nat) {
    && |s| == 22
    && U32(s, 0) == END && U16(s, 4) == 0 && U16(s, 6) == 0 && U16(s, 8) == count % LIMIT16
    && U16(s, 10) == count % LIMIT16 && U32(s, 12) == size % LIMIT32 && U32(s, 16) == offset % LIMIT32 && U16(s, 20) == 0
  }

  lemma {:induction false} EndFields(count: nat, size: nat, offset: nat)
    ensures IsEnd(EndRecord(count, size, offset), count, size, offset)
  {
    Le16RoundTrip(count);
    Le32RoundTrip(size);
    Le32RoundTrip(offset);
  }

  lemma {:induction false} ReferenceFits(data: seq<Byte>)
    ensures Reference(data) < LIMIT32
  {
    BitsOfNumber(Xor(Run(Shift, Xor, ONES, MessageBits(data)), ONES));
    PowerOfWidth();
  }

  lemma PowerOfWidth()
    ensures Power(2, WIDTH) == LIMIT32
  {
    assert Power(2, 8) == 256;
    assert Power(2, 16) == 65536;
    assert Power(2, 24) == 0x100_0000;
  }

  //// Reading undoes writing

  lemma {:induction false} ReadBodyEntry(body: seq<Byte>, e: Entry, crc: nat, tail: seq<Byte>)
    requires body == e.name + e.data + tail
    requires Reference(e.data) == crc
    ensures ReadBody(body, e.name, |e.name|, 0, crc, |e.data|) == Some(Item(e.name, e.data, crc))
  {
    assert body[..|e.name|] == e.name;
    assert body[|e.name|..|e.name| + |e.data|] == e.data;
  }

  lemma {:induction false} ReadLocalEntry(b: seq<Byte>, offset: nat, head: seq<Byte>, e: Entry, crc: nat, tail: seq<Byte>)
    requires |head| == 30 && ReadLocalHead(head) == Some(Head(ABOUT, None, |e.name|, 0, crc, |e.data|, 0))
    requires offset <= |b| && b[offset..] == head + (e.name + e.data + tail)
    requires Reference(e.data) == crc
    ensures ReadLocal(b, offset, e.name, crc, |e.data|) == Some(Item(e.name, e.data, crc))
  {
    Split(b, offset, head, e.name + e.data + tail);
    ReadBodyEntry(b[offset + 30..], e, crc, tail);
  }

  lemma {:induction false} Split(b: seq<Byte>, offset: nat, first: seq<Byte>, rest: seq<Byte>)
    requires offset <= |b| && b[offset..] == first + rest
    ensures offset + |first| <= |b| && b[offset..offset + |first|] == first && b[offset + |first|..] == rest
  {
    assert b[offset..offset + |first|] == b[offset..][..|first|];
    assert b[offset + |first|..] == b[offset..][|first|..];
  }

  /** The first record of a directory whose header holds these fields. */
  lemma {:induction false} ReadFirst(b: seq<Byte>, head: seq<Byte>, e: Entry, crc: nat, offset: nat, rest: seq<Byte>, count: nat)
    requires |head| == 46 && ReadCentralHead(head) == Some(Head(ABOUT, Some(ORIGIN), |e.name|, 0, crc, |e.data|, offset))
    ensures var item := ReadLocal(b, offset, e.name, crc, |e.data|);
            var others := ReadDirectory(b, rest, count);
            item.Some? && others.Some? ==>
              ReadDirectory(b, head + e.name + rest, count + 1) == Some([item.value] + others.value)
  {
    var dir, n := head + e.name + rest, |e.name|;
    assert dir[..46] == head;
    assert dir[46..46 + n] == e.name;
    assert dir[46 + n..] == rest;
  }

  lemma {:induction false} Reassociate(b: seq<Byte>, head: seq<Byte>, name: seq<Byte>, data: seq<Byte>, others: seq<Byte>, tail: seq<Byte>)
    requires b == ((head + name + data) + others) + tail
    ensures b == head + (name + data + (others + tail)) && b == (head + name + data) + (others + tail)
  {
  }

  /** An archive that continues with the local record of `e` is read there, and continues after it. */
  lemma {:induction false} ReadFirstLocal(b: seq<Byte>, offset: nat, e: Entry, others: seq<Byte>, tail: seq<Byte>)
    requires |e.name| < LIMIT16 && |e.data| < LIMIT32
    requires offset <= |b| && b[offset..] == (Local(e) + others) + tail
    ensures var crc := Reference(e.data);
            ReadLocal(b, offset, e.name, crc, |e.data|) == Some(Item(e.name, e.data, crc))
    ensures offset + |Local(e)| <= |b| && b[offset + |Local(e)|..] == others + tail
  {
    var crc := Reference(e.data);
    var head := LocalHead(crc, |e.data|, |e.name|);
    ReferenceFits(e.data);
    LocalHeadIsRead(crc, |e.data|, |e.name|);
    Reassociate(b[offset..], head, e.name, e.data, others, tail);
    Split(b, offset, Local(e), others + tail);
    ReadLocalEntry(b, offset, head, e, crc, others + tail);
  }

  lemma {:induction false} ReadFirstCentral(b: seq<Byte>, e: Entry, offset: nat, rest: seq<Byte>, count: nat)
    requires |e.name| < LIMIT16 && |e.data| < LIMIT32 && offset < LIMIT32
    ensures var item := ReadLocal(b, offset, e.name, Reference(e.data), |e.data|);
            var others := ReadDirectory(b, rest, count);
            item.Some? && others.Some? ==>
              ReadDirectory(b, Central(e, offset) + rest, count + 1) == Some([item.value] + others.value)
  {
    var crc := Reference(e.data);
    ReferenceFits(e.data);
    CentralHeadIsRead(crc, |e.data|, |e.name|, offset);
    ReadFirst(b, CentralHead(crc, |e.data|, |e.name|, offset), e, crc, offset, rest, count);
  }

  lemma {:induction false} ReadDirectoryEntries(b: seq<Byte>, es: seq<Entry>, offset: nat, tail: seq<Byte>)
    requires forall e | e in es :: |e.name| < LIMIT16 && |e.data| < LIMIT32
    requires offset <= |b| && b[offset..] == Locals(es) + tail
    requires offset + |Locals(es)| < LIMIT32
    ensures ReadDirectory(b, Centrals(es, offset), |es|) == Some(Items(es))
  {
    if es != [] {
      var e, rest := es[0], es[1..];
      var next := offset + |Local(e)|;
      var locals, dir := Locals(rest), Centrals(rest, next);
      assert Locals(es) == Local(e) + locals && Centrals(es, offset) == Central(e, offset) + dir;
      assert Items(es) == [Item(e.name, e.data, Reference(e.data))] + Items(rest);
      assert b[next..] == locals + tail by {
        ReadFirstLocal(b, offset, e, locals, tail);
      }
      ReadDirectoryEntries(b, rest, next, tail);
      PrependEntry(b, e, offset, locals, tail, dir, rest);
    }
  }

  lemma {:induction false} PrependEntry(b: seq<Byte>, e: Entry, offset: nat, locals: seq<Byte>, tail: seq<Byte>, dir: seq<Byte>, rest: seq<Entry>)
    requires |e.name| < LIMIT16 && |e.data| < LIMIT32 && offset < LIMIT32
    requires offset <= |b| && b[offset..] == (Local(e) + locals) + tail
    requires ReadDirectory(b, dir, |rest|) == Some(Items(rest))
    ensures ReadDirectory(b, Central(e, offset) + dir, |rest| + 1)
         == Some([Item(e.name, e.data, Reference(e.data))] + Items(rest))
  {
    ReadFirstLocal(b, offset, e, locals, tail);
    ReadFirstCentral(b, e, offset, dir, |rest|);
  }

  lemma {:induction false} CutOff(x: nat, y: nat)
    ensures x % LIMIT32 + y % LIMIT32 == x + y <==> x < LIMIT32 && y < LIMIT32
    ensures x < LIMIT32 ==> x % LIMIT32 == x
    ensures y < LIMIT32 ==> y % LIMIT32 == y
  {
  }

  lemma {:induction false} NotCutOff(n: nat)
    requires n < LIMIT16
    ensures n % LIMIT16 == n
  {
  }

  lemma {:induction false} Slices(b: seq<Byte>, l: seq<Byte>, c: seq<Byte>, end: seq<Byte>)
    requires b == l + c + end
    ensures b[|l| + |c|..] == end && b[|l|..|l| + |c|] == c && b[0..] == l + (c + end)
  {
  }

  /** What the reader makes of an archive of these parts: the fields of the end record are cut off at their width. */
  lemma {:induction false} ReadParts(b: seq<Byte>, count: nat, l: seq<Byte>, c: seq<Byte>, end: seq<Byte>)
    requires b == l + c + end && IsEnd(end, count, |c|, |l|)
    ensures if |l| < LIMIT32 && |c| < LIMIT32 then ReadArchive(b) == ReadDirectory(b, c, count % LIMIT16)
            else ReadArchive(b) == None
  {
    Slices(b, l, c, end);
    CutOff(|l|, |c|);
    assert |b| == |l| + |c| + 22 && b[|b| - 22..] == end;
  }

  /** Within the bounds, the reader recovers exactly the entries, in order, with their checksums. */
  lemma {:induction false} ReadUndoesWrite(es: seq<Entry>, b: seq<Byte>, l: seq<Byte>, c: seq<Byte>, end: seq<Byte>)
    requires Fits(es) && l == Locals(es) && c == Centrals(es, 0)
    requires b == l + c + end && IsEnd(end, |es|, |c|, |l|)
    ensures ReadArchive(b) == Some(Items(es))
  {
    NotCutOff(|es|);
    ReadParts(b, |es|, l, c, end);
    assert ReadDirectory(b, c, |es|) == Some(Items(es)) by {
      Slices(b, l, c, end);
      ReadDirectoryEntries(b, es, 0, c + end);
    }
  }

  //// Outside the bounds it cannot

  lemma {:induction false} ItemsAt(es: seq<Entry>)
    ensures |Items(es)| == |es|
    ensures forall i | 0 <= i < |es| :: Items(es)[i].name == es[i].name && Items(es)[i].data == es[i].data
  {
    if es != [] {
      ItemsAt(es[1..]);
    }
  }

  lemma {:induction false} OnlyFittingIsRead(es: seq<Entry>, b: seq<Byte>, end: seq<Byte>)
    requires b == Locals(es) + Centrals(es, 0) + end && IsEnd(end, |es|, |Centrals(es, 0)|, |Locals(es)|)
    requires ReadArchive(b) == Some(Items(es))
    ensures Fits(es)
  {
    ReadParts(b, |es|, Locals(es), Centrals(es, 0), end);
    ItemsAt(es);
    forall e | e in es
      ensures |e.name| < LIMIT16 && |e.data| < LIMIT32
    {
      var i :| 0 <= i < |es| && es[i] == e;
      assert IsBounded(Items(es)[i]);
    }
  }

  /** The archive can be read back, entry for entry, if and only if its entries respect the bounds of the fields. */
  lemma {:induction false} ReadableExactlyWhenFits(es: seq<Entry>)
    ensures ReadArchive(Archive(es)) == Some(Items(es)) <==> Fits(es)
  {
    var end := EndRecord(|es|, |Centrals(es, 0)|, |Locals(es)|);
    EndFields(|es|, |Centrals(es, 0)|, |Locals(es)|);
    if Fits(es) {
      ReadUndoesWrite(es, Archive(es), Locals(es), Centrals(es, 0), end);
    }
    if ReadArchive(Archive(es)) == Some(Items(es)) {
      OnlyFittingIsRead(es, Archive(es), end);
    }
  }

  /** One entry more than the count field can hold, and the archive does not read back. */
  lemma TooManyEntries()
    ensures var es := seq(65536, _ => Entry([], []));
            !Fits(es) && ReadArchive(Archive(es)) != Some(Items(es))
  {
    ReadableExactlyWhenFits(seq(65536, _ => Entry([], [])));
  }

  //// The workbook

  function NameBytes(es: seq<Entry>): nat {
    if es == [] then 0 else |es[0].name| + NameBytes(es[1..])
  }

  function DataBytes(es: seq<Entry>): nat {
    if es == [] then 0 else |es[0].data| + DataBytes(es[1..])
  }

  lemma {:induction false} SizeOfLocals(es: seq<Entry>)
    ensures |Locals(es)| == 30 * |es| + NameBytes(es) + DataBytes(es)
  {
    if es != [] {
      SizeOfLocals(es[1..]);
      assert Locals(es) == Local(es[0]) + Locals(es[1..]);
    }
  }

  lemma {:induction false} SizeOfCentrals(es: seq<Entry>, offset: nat)
    ensures |Centrals(es, offset)| == 46 * |es| + NameBytes(es)
  {
    if es != [] {
      var next := offset + |Local(es[0])|;
      SizeOfCentrals(es[1..], next);
      assert Centrals(es, offset) == Central(es[0], offset) + Centrals(es[1..], next);
    }
  }

  lemma {:induction false} PartsAreSmaller(es: seq<Entry>, e: Entry)
    requires e in es
    ensures |e.name| <= NameBytes(es) && |e.data| <= DataBytes(es)
  {
    if e != es[0] {
      PartsAreSmaller(es[1..], e);
    }
  }

  /** The parts that every workbook has; their names are ASCII, one byte a character. */
  const PARTS := ["[Content_Types].xml", "_rels/.rels", "xl/workbook.xml", "xl/_rels/workbook.xml.rels",
                  "xl/worksheets/sheet1.xml", "xl/styles.xml"]

  /** One entry for each part, with a name of the same length. */
  predicate IsWorkbook(es: seq<Entry>) {
    |es| == |PARTS| && forall i | 0 <= i < |PARTS| :: |es[i].name| == |PARTS[i]|
  }

  lemma {:induction false} WorkbookNames(es: seq<Entry>)
    requires IsWorkbook(es)
    ensures |es| == 6 && NameBytes(es) == 108
  {
    assert |PARTS[0]| == 19 && |PARTS[1]| == 11 && |PARTS[2]| == 15 && |PARTS[3]| == 26 && |PARTS[4]| == 24;
    assert |PARTS[5]| == 13;
    assert NameBytes(es[6..]) == 0;
    assert es[5..][1..] == es[6..] && NameBytes(es[5..]) == 13;
    assert es[4..][1..] == es[5..] && NameBytes(es[4..]) == 37;
    assert es[3..][1..] == es[4..] && NameBytes(es[3..]) == 63;
    assert es[2..][1..] == es[3..] && NameBytes(es[2..]) == 78;
    assert es[1..][1..] == es[2..] && NameBytes(es[1..]) == 89;
  }

  /** The workbook reads back exactly when its contents leave room, below 4 GiB, for 288 bytes of headers and names. */
  lemma {:induction false} WorkbookReadableExactly(es: seq<Entry>)
    requires IsWorkbook(es)
    ensures ReadArchive(Archive(es)) == Some(Items(es)) <==> DataBytes(es) < 0x1_0000_0000 - 288
  {
    WorkbookNames(es);
    ReadableExactlyWhenFits(es);
    SizeOfLocals(es);
    SizeOfCentrals(es, 0);
    forall e | e in es
      ensures |e.name| <= 108 && |e.data| <= DataBytes(es)
    {
      PartsAreSmaller(es, e);
    }
  }

  //// The bytes themselves

  /** Fields are written lowest byte first. */
  lemma FieldBytes()
    ensures Le16(0x0102) == [0x02, 0x01] && Le32(0x01020304) == [0x04, 0x03, 0x02, 0x01]
    ensures Le32(LOCAL) == [0x50, 0x4b, 0x03, 0x04]
    ensures Le32(CENTRAL) == [0x50, 0x4b, 0x01, 0x02]
    ensures Le32(END) == [0x50, 0x4b, 0x05, 0x06]
  {
  }

  /** Every record starts with the signature that the format prescribes, and the archive with one of them. */
  lemma {:induction false} SignatureBytes(es: seq<Entry>, e: Entry, offset: nat)
    ensures Local(e)[..4] == [0x50, 0x4b, 0x03, 0x04]
    ensures Central(e, offset)[..4] == [0x50, 0x4b, 0x01, 0x02]
    ensures var b := Archive(es);
            && |b| >= 22 && b[|b| - 22..|b| - 18] == [0x50, 0x4b, 0x05, 0x06]
            && (es != [] ==> b[..4] == [0x50, 0x4b, 0x03, 0x04])
  {
    FieldBytes();
    assert Local(e)[..4] == Le32(LOCAL);
    assert Central(e, offset)[..4] == Le32(CENTRAL);
    var b, end := Archive(es), EndRecord(|es|, |Centrals(es, 0)|, |Locals(es)|);
    assert b[|b| - 22..] == end && end[..4] == Le32(END);
    assert b[|b| - 22..|b| - 18] == b[|b| - 22..][..4];
    if es != [] {
      assert Local(es[0])[..4] == Le32(LOCAL);
      assert Locals(es) == Local(es[0]) + Locals(es[1..]);
      assert b[..4] == Local(es[0])[..4];
    }
  }
}
