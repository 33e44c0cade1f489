/** The program that writes the archive: records filled through fixed offsets, then copied one after the other. */
module ZipWriter {
  import opened Crc32
  import opened Prelude
  import opened Zip

  /** The buffer holds `done` followed by the zeros it was allocated with. */
  ghost predicate Written(a: array<Byte>, done: seq<Byte>)
    reads a
  {
    |done| <= a.Length && a[..] == done + Copies(0, a.Length - |done|)
  }

  method NewBuffer(size: nat) returns (a: array<Byte>)
    ensures fresh(a) && a.Length == size && Written(a, [])
  {
    a := new Byte[size](_ => 0);
    assert a[..] == [] + Copies(0, size);
  }

  /** Copy bytes to a position, as a typed array's `set` does. */
  method SetBytes(a: array<Byte>, pos: nat, bytes: seq<Byte>, ghost done: seq<Byte>)
    requires Written(a, done) && pos == |done| && pos + |bytes| <= a.Length
    modifies a
    ensures Written(a, done + bytes)
  {
    ghost var before := a[..];
    for i := 0 to |bytes|
      invariant forall k | 0 <= k < a.Length ::
                  a[k] == if pos <= k < pos + i then bytes[k - pos] else before[k]
    {
      a[pos + i] := bytes[i];
    }
    assert a[..] == done + bytes + Copies(0, a.Length - |done + bytes|);
  }

  method SetUint16(a: array<Byte>, pos: nat, value: nat, ghost done: seq<Byte>)
    requires Written(a, done) && pos == |done| && pos + 2 <= a.Length
    modifies a
    ensures Written(a, done + Le16(value))
  {
    SetBytes(a, pos, Le16(value), done);
  }

  method SetUint32(a: array<Byte>, pos: nat, value: nat, ghost done: seq<Byte>)
    requires Written(a, done) && pos == |done| && pos + 4 <= a.Length
    modifies a
    ensures Written(a, done + Le32(value))
  {
    SetBytes(a, pos, Le32(value), done);
  }

  /** A field that is never set keeps the value zero. */
  lemma {:induction false} Skip(a: array<Byte>, done: seq<Byte>, field: seq<Byte>)
    requires Written(a, done) && |done| + |field| <= a.Length
    requires forall i | 0 <= i < |field| :: field[i] == 0
    ensures Written(a, done + field)
  {
    assert Copies(0, a.Length - |done|) == field + Copies(0, a.Length - |done| - |field|);
  }

  method WriteSizes(a: array<Byte>, pos: nat, e: Entry, crc: nat, ghost done: seq<Byte>)
    requires Written(a, done) && pos == |done| && pos + 14 <= a.Length
    modifies a
    ensures Written(a, done + Sizes(crc, |e.data|, |e.name|))
  {
    SetUint32(a, pos, crc, done);
    SetUint32(a, pos + 4, |e.data|, done + Le32(crc));
    SetUint32(a, pos + 8, |e.data|, done + Le32(crc) + Le32(|e.data|));
    SetUint16(a, pos + 12, |e.name|, done + Le32(crc) + Le32(|e.data|) + Le32(|e.data|));
    assert done + Sizes(crc, |e.data|, |e.name|)
        == done + Le32(crc) + Le32(|e.data|) + Le32(|e.data|) + Le16(|e.name|);
  }

  method WriteLocalStart(a: array<Byte>)
    requires Written(a, []) && 14 <= a.Length
    modifies a
    ensures Written(a, LocalStart())
  {
    SetUint32(a, 0, LOCAL, []);
    SetUint16(a, 4, 20, Le32(LOCAL));
    SetUint16(a, 6, 0x0800, Le32(LOCAL) + Le16(20));
    SetUint16(a, 8, 0, Le32(LOCAL) + Le16(20) + Le16(0x0800));
    SetUint16(a, 10, 0, Le32(LOCAL) + Le16(20) + Le16(0x0800) + Le16(0));
    SetUint16(a, 12, 0x21, Le32(LOCAL) + Le16(20) + Le16(0x0800) + Le16(0) + Le16(0));
  }

  method WriteLocal(e: Entry, crc: nat) returns (local: array<Byte>)
    requires crc == Reference(e.data)
    ensures fresh(local) && local[..] == Local(e)
  {
    local := NewBuffer(30 + |e.name| + |e.data|);
    WriteLocalStart(local);
    WriteSizes(local, 14, e, crc, LocalStart());
    ghost var head := LocalStart() + Sizes(crc, |e.data|, |e.name|);
    Skip(local, head, Le16(0));
    SetBytes(local, 30, e.name, head + Le16(0));
    SetBytes(local, 30 + |e.name|, e.data, head + Le16(0) + e.name);
  }

  method WriteCentralStart(a: array<Byte>)
    requires Written(a, []) && 16 <= a.Length
    modifies a
    ensures Written(a, CentralStart())
  {
    SetUint32(a, 0, CENTRAL, []);
    SetUint16(a, 4, 20, Le32(CENTRAL));
    SetUint16(a, 6, 20, Le32(CENTRAL) + Le16(20));
    SetUint16(a, 8, 0x0800, Le32(CENTRAL) + Le16(20) + Le16(20));
    SetUint16(a, 10, 0, Le32(CENTRAL) + Le16(20) + Le16(20) + Le16(0x0800));
    SetUint16(a, 12, 0, Le32(CENTRAL) + Le16(20) + Le16(20) + Le16(0x0800) + Le16(0));
    SetUint16(a, 14, 0x21, Le32(CENTRAL) + Le16(20) + Le16(20) + Le16(0x0800) + Le16(0) + Le16(0));
  }

  method WriteCentral(e: Entry, crc: nat, offset: nat) returns (central: array<Byte>)
    requires crc == Reference(e.data)
    ensures fresh(central) && central[..] == Central(e, offset)
  {
    central := NewBuffer(46 + |e.name|);
    WriteCentralStart(central);
    WriteSizes(central, 16, e, crc, CentralStart());
    ghost var head := CentralStart() + Sizes(crc, |e.data|, |e.name|);
    ghost var unset := Le16(0) + Le16(0) + Le16(0) + Le16(0) + Le32(0);
    Skip(central, head, unset);
    SetUint32(central, 42, offset, head + unset);
    SetBytes(central, 46, e.name, head + unset + Le32(offset));
  }

  method WriteEnd(count: nat, centralSize: nat, offset: nat) returns (end: array<Byte>)
    ensures fresh(end) && end[..] == EndRecord(count, centralSize, offset)
  {
    end := NewBuffer(22);
    SetUint32(end, 0, END, []);
    Skip(end, Le32(END), Le16(0) + Le16(0));
    ghost var done := Le32(END) + Le16(0) + Le16(0);
    assert done == Le32(END) + (Le16(0) + Le16(0));
    SetUint16(end, 8, count, done);
    SetUint16(end, 10, count, done + Le16(count));
    SetUint32(end, 12, centralSize, done + Le16(count) + Le16(count));
    SetUint32(end, 16, offset, done + Le16(count) + Le16(count) + Le32(centralSize));
    Skip(end, done + Le16(count) + Le16(count) + Le32(centralSize) + Le32(offset), Le16(0));
  }

  //// The parts and their concatenation

  function Concat(parts: seq<seq<Byte>>): seq<Byte> {
    if parts == [] then [] else Concat(parts[..|parts| - 1]) + parts[|parts| - 1]
  }

  lemma {:induction false} ConcatSum(a: seq<seq<Byte>>, b: seq<seq<Byte>>)
    ensures Concat(a + b) == Concat(a) + Concat(b)
    decreases |b|
  {
    if b == [] {
      assert a + b == a;
    } else {
      assert (a + b)[..|a + b| - 1] == a + b[..|b| - 1];
      ConcatSum(a, b[..|b| - 1]);
    }
  }

  lemma {:induction false} LocalsAppend(local: Entry -> seq<Byte>, es: seq<Entry>, e: Entry)
    ensures LocalsOf(local, es + [e]) == LocalsOf(local, es) + local(e)
  {
    if es == [] {
      assert LocalsOf(local, [e]) == local(e) + LocalsOf(local, [e][1..]);
    } else {
      assert (es + [e])[1..] == es[1..] + [e];
      LocalsAppend(local, es[1..], e);
    }
  }

  lemma {:induction false} CentralsAppend(local: Entry -> seq<Byte>, central: (Entry, nat) -> seq<Byte>,
                                          es: seq<Entry>, e: Entry, offset: nat)
    ensures CentralsOf(local, central, es + [e], offset)
         == CentralsOf(local, central, es, offset) + central(e, offset + |LocalsOf(local, es)|)
  {
    if es == [] {
      assert CentralsOf(local, central, [e], offset)
          == central(e, offset) + CentralsOf(local, central, [e][1..], offset + |local(e)|);
    } else {
      var next := offset + |local(es[0])|;
      assert (es + [e])[1..] == es[1..] + [e];
      CentralsAppend(local, central, es[1..], e, next);
      Associate(central(es[0], offset), CentralsOf(local, central, es[1..], next),
                central(e, next + |LocalsOf(local, es[1..])|));
    }
  }

  lemma {:induction false} Associate(a: seq<Byte>, b: seq<Byte>, c: seq<Byte>)
    ensures a + (b + c) == (a + b) + c
  {
  }

  /** Copy the parts one after the other into one buffer. */
  method Assemble(parts: seq<seq<Byte>>, size: nat) returns (out: array<Byte>)
    requires size == |Concat(parts)|
    ensures fresh(out) && out[..] == Concat(parts)
  {
    out := NewBuffer(size);
    var position := 0;
    for k := 0 to |parts|
      invariant Written(out, Concat(parts[..k])) && position == |Concat(parts[..k])| && out.Length == size
    {
      assert parts[..k + 1][..k] == parts[..k];
      ConcatSum(parts[..k + 1], parts[k + 1..]);
      assert parts[..k + 1] + parts[k + 1..] == parts;
      SetBytes(out, position, parts[k], Concat(parts[..k]));
      position := position + |parts[k]|;
    }
    assert parts[..|parts|] == parts;
  }

  method WriteRecord(e: Entry, offset: nat, checksum: Checksum) returns (local: seq<Byte>, central: seq<Byte>)
    requires checksum.Valid()
    modifies checksum
    ensures checksum.Valid()
    ensures checksum.table == old(checksum.table) || (old(checksum.table) == null && fresh(checksum.table))
    ensures local == Local(e) && central == Central(e, offset)
  {
    var crc := checksum.Compute(e.data);
    var localBuffer := WriteLocal(e, crc);
    var centralBuffer := WriteCentral(e, crc, offset);
    local, central := localBuffer[..], centralBuffer[..];
  }

  /** One local and one central record per entry; `offset` is the size of the local ones. */
  method WriteRecords(entries: seq<Entry>, checksum: Checksum)
    returns (locals: seq<seq<Byte>>, centrals: seq<seq<Byte>>, offset: nat)
    requires checksum.Valid()
    modifies checksum
    ensures checksum.Valid()
    ensures Concat(locals) == Locals(entries) && offset == |Locals(entries)| && Concat(centrals) == Centrals(entries, 0)
  {
    locals, centrals, offset := [], [], 0;
    for k := 0 to |entries|
      invariant checksum.Valid() && (checksum.table == old(checksum.table) || fresh(checksum.table))
      invariant Concat(locals) == Locals(entries[..k]) && offset == |Locals(entries[..k])|
      invariant Concat(centrals) == Centrals(entries[..k], 0)
    {
      var local, central := WriteRecord(entries[k], offset, checksum);
      RecordsAppend(Local, Central, entries, k, locals, centrals);
      locals, centrals := locals + [local], centrals + [central];
      offset := offset + |local|;
    }
    assert entries[..|entries|] == entries;
  }

  lemma {:induction false} RecordsAppend(local: Entry -> seq<Byte>, central: (Entry, nat) -> seq<Byte>, entries: seq<Entry>, k: nat,
                      locals: seq<seq<Byte>>, centrals: seq<seq<Byte>>)
    requires k < |entries|
    requires Concat(locals) == LocalsOf(local, entries[..k])
    requires Concat(centrals) == CentralsOf(local, central, entries[..k], 0)
    ensures var e, offset := entries[k], |LocalsOf(local, entries[..k])|;
            && Concat(locals + [local(e)]) == LocalsOf(local, entries[..k + 1])
            && Concat(centrals + [central(e, offset)]) == CentralsOf(local, central, entries[..k + 1], 0)
            && |LocalsOf(local, entries[..k + 1])| == offset + |local(e)|
  {
    var e, offset := entries[k], |LocalsOf(local, entries[..k])|;
    assert entries[..k + 1] == entries[..k] + [e];
    LocalsAppend(local, entries[..k], e);
    CentralsAppend(local, central, entries[..k], e, 0);
    assert (locals + [local(e)])[..|locals|] == locals;
    assert (centrals + [central(e, offset)])[..|centrals|] == centrals;
  }

  method TotalSize(parts: seq<seq<Byte>>) returns (size: nat)
    ensures size == |Concat(parts)|
  {
    size := 0;
    for k := 0 to |parts|
      invariant size == |Concat(parts[..k])|
    {
      assert parts[..k + 1][..k] == parts[..k];
      size := size + |parts[k]|;
    }
    assert parts[..|parts|] == parts;
  }

  method WriteArchive(entries: seq<Entry>, checksum: Checksum) returns (out: array<Byte>)
    requires checksum.Valid()
    modifies checksum
    ensures checksum.Valid()
    ensures fresh(out) && out[..] == Archive(entries)
  {
    var locals, centrals, offset := WriteRecords(entries, checksum);
    var centralSize := TotalSize(centrals);
    var end := WriteEnd(|entries|, centralSize, offset);
    ConcatSum(locals, centrals);
    ConcatSum(locals + centrals, [end[..]]);
    assert Concat([end[..]]) == Concat([]) + end[..];
    out := Assemble(locals + centrals + [end[..]], offset + centralSize + 22);
  }
}
