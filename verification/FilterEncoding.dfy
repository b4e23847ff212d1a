/** A writer for the native filter buffer, and the proof that the parser reads back what it wrote. */
module FilterEncoding {
  import opened NativeTypes
  import opened Wrappers
  import opened LinkedRecords
  import opened FilterBuffer

  // ----- Writing -----

  function U16Bytes(u: Unit): (bytes: seq<Byte>)
    ensures |bytes| == 2
  {
    [u % 0x100, u / 0x100]
  }

  function U32Bytes(n: U32): (bytes: seq<Byte>)
    ensures |bytes| == 4
  {
    U16Bytes(n % 0x1_0000) + U16Bytes(n / 0x1_0000)
  }

  /** A pointer, cut to the width of `usize`. */
  function UsizeBytes(l: Layout, n: nat): (bytes: seq<Byte>)
    requires l.Valid()
    ensures |bytes| == l.word
  {
    var low := U32Bytes(n % 0x1_0000_0000);
    if l.word == 4 then low else low + U32Bytes((n / 0x1_0000_0000) % 0x1_0000_0000)
  }

  function TwosComplement(n: I32): U32 {
    if n < 0 then n + 0x1_0000_0000 else n
  }

  function ProcessBytes(p: UniqueProcess): (bytes: seq<Byte>)
    ensures |bytes| == 12
  {
    var t := U64ToFileTime(p.startTime);
    U32Bytes(p.pid) + U32Bytes(t.low) + U32Bytes(t.high)
  }

  /** A wide string and its terminator. */
  function StringBytes(units: seq<Unit>): (bytes: seq<Byte>)
    ensures |bytes| == 2 * |units| + 2
  {
    if units == [] then U16Bytes(0) else U16Bytes(units[0]) + StringBytes(units[1..])
  }

  function Put(bytes: seq<Byte>, at: nat, data: seq<Byte>): (r: seq<Byte>)
    requires at + |data| <= |bytes|
    ensures |r| == |bytes|
  {
    bytes[..at] + data + bytes[at + |data|..]
  }

  function RecordBytes(l: Layout, action: I32, trigger: I32, next: nat, union: seq<Byte>): (bytes: seq<Byte>)
    requires l.Valid() && l.target + |union| <= l.recordSize
    ensures |bytes| == l.recordSize
  {
    var blank: seq<Byte> := seq(l.recordSize, _ => 0);
    var withAction := Put(blank, l.action, U32Bytes(TwosComplement(action)));
    var withTrigger := Put(withAction, l.trigger, U32Bytes(TwosComplement(trigger)));
    var withNext := Put(withTrigger, l.next, U32Bytes(next % 0x1_0000_0000));
    Put(withNext, l.target, union)
  }

  /** The bytes that trail a filter's record: its string, if it has one. */
  function Trailer(target: RawTarget): seq<Byte> {
    match target
    case Executable(path) => StringBytes(path)
    case Process(_) => []
    case Service(name) => StringBytes(name)
  }

  function Trigger(l: Layout, target: RawTarget): I32 {
    match target case Executable(_) => l.file case Process(_) => l.process case Service(_) => l.service
  }

  function Union(l: Layout, pointer: nat, target: RawTarget): (bytes: seq<Byte>)
    requires l.Valid()
    ensures l.target + |bytes| <= l.recordSize
  {
    if target.Process? then ProcessBytes(target.process) else UsizeBytes(l, pointer)
  }

  /** The record of one filter and its string, at offset `at` of a buffer at `base`. */
  function Chunk(l: Layout, base: nat, at: nat, filter: RawFilter, next: nat): (bytes: seq<Byte>)
    requires l.Valid()
    ensures |bytes| == ChunkSize(l, filter)
  {
    RecordBytes(l, filter.action, Trigger(l, filter.target), next,
                Union(l, base + at + l.recordSize, filter.target))
    + Trailer(filter.target)
  }

  function ChunkSize(l: Layout, filter: RawFilter): nat {
    l.recordSize + |Trailer(filter.target)|
  }

  /** Linked records, each followed at once by its own string. */
  function Encode(l: Layout, base: nat, filters: seq<RawFilter>): seq<Byte>
    requires l.Valid()
  {
    Linked(Chunks(l, base), Sizes(l), 0, filters)
  }

  function Chunks(l: Layout, base: nat): Writer<RawFilter>
    requires l.Valid()
  {
    (at: nat, filter: RawFilter, next: nat) => Chunk(l, base, at, filter, next)
  }

  function Sizes(l: Layout): RawFilter -> nat {
    (filter: RawFilter) => ChunkSize(l, filter)
  }

  function EncodedSize(l: Layout, filters: seq<RawFilter>): nat {
    TotalSize(Sizes(l), filters)
  }

  // ----- Reading back -----

  /** The FILETIME halves and the 64-bit value determine each other. */
  lemma FileTimeInverse(value: U64, t: FileTime)
    ensures FileTimeToU64(U64ToFileTime(value)) == value
    ensures U64ToFileTime(FileTimeToU64(t)) == t
  {}

  lemma WithinTrans(whole: seq<Byte>, at: nat, part: seq<Byte>, inner: nat, piece: seq<Byte>)
    requires Within(whole, at, part) && Within(part, inner, piece)
    ensures Within(whole, at + inner, piece)
  {
    var slice, inside := whole[at..at + |part|], whole[at + inner..at + inner + |piece|];
    forall k | 0 <= k < |piece|
      ensures inside[k] == piece[k]
    {
      assert slice[inner + k] == whole[at + inner + k];
      assert piece[k] == part[inner..inner + |piece|][k];
    }
  }

  lemma SplitWithin(whole: seq<Byte>, at: nat, left: seq<Byte>, right: seq<Byte>)
    requires Within(whole, at, left + right)
    ensures Within(whole, at, left) && Within(whole, at + |left|, right)
  {
    WithinTrans(whole, at, left + right, 0, left);
    WithinTrans(whole, at, left + right, |left|, right);
  }

  lemma U16ReadsBack(bytes: seq<Byte>, at: nat, u: Unit)
    requires Within(bytes, at, U16Bytes(u))
    ensures ReadU16(bytes, |bytes|, at) == u
  {
    var s := bytes[at..at + 2];
    assert s[0] == bytes[at] && s[1] == bytes[at + 1];
  }

  lemma U32ReadsBack(bytes: seq<Byte>, at: nat, n: U32)
    requires Within(bytes, at, U32Bytes(n))
    ensures ReadU32(bytes, |bytes|, at) == n
  {
    SplitWithin(bytes, at, U16Bytes(n % 0x1_0000), U16Bytes(n / 0x1_0000));
    U16ReadsBack(bytes, at, n % 0x1_0000);
    U16ReadsBack(bytes, at + 2, n / 0x1_0000);
  }

  lemma UsizeReadsBack(l: Layout, bytes: seq<Byte>, at: nat, n: nat)
    requires l.Valid() && n <= l.MaxUsize()
    requires Within(bytes, at, UsizeBytes(l, n))
    ensures ReadUsize(l, bytes, |bytes|, at) == n
  {
    if l.word == 4 {
      U32ReadsBack(bytes, at, n);
    } else {
      SplitWithin(bytes, at, U32Bytes(n % 0x1_0000_0000), U32Bytes(n / 0x1_0000_0000));
      U32ReadsBack(bytes, at, n % 0x1_0000_0000);
      U32ReadsBack(bytes, at + 4, n / 0x1_0000_0000);
    }
  }

  lemma SignReadsBack(n: I32)
    ensures AsI32(TwosComplement(n)) == n
  {}

  lemma DwordShown(l: Layout, v: View, bytes: seq<Byte>, at: nat, n: U32)
    requires l.Valid() && Shows(l, v, bytes, |bytes|)
    requires Within(bytes, at, U32Bytes(n))
    ensures v.dword(at) == n
  {
    U32ReadsBack(bytes, at, n);
  }

  lemma PointerShown(l: Layout, v: View, bytes: seq<Byte>, at: nat, n: nat)
    requires l.Valid() && Shows(l, v, bytes, |bytes|) && n <= l.MaxUsize()
    requires Within(bytes, at, UsizeBytes(l, n))
    ensures v.pointer(at) == n
  {
    UsizeReadsBack(l, bytes, at, n);
  }

  lemma ProcessShown(l: Layout, v: View, bytes: seq<Byte>, at: nat, p: UniqueProcess)
    requires l.Valid() && Shows(l, v, bytes, |bytes|)
    requires Within(bytes, at, ProcessBytes(p))
    ensures UniqueProcess(v.dword(at), FileTimeToU64(FileTime(v.dword(at + 4), v.dword(at + 8)))) == p
  {
    var t := U64ToFileTime(p.startTime);
    SplitWithin(bytes, at, U32Bytes(p.pid) + U32Bytes(t.low), U32Bytes(t.high));
    SplitWithin(bytes, at, U32Bytes(p.pid), U32Bytes(t.low));
    DwordShown(l, v, bytes, at, p.pid);
    DwordShown(l, v, bytes, at + 4, t.low);
    DwordShown(l, v, bytes, at + 8, t.high);
    FileTimeInverse(p.startTime, t);
  }

  lemma UnitShown(l: Layout, v: View, bytes: seq<Byte>, at: nat, u: Unit)
    requires l.Valid() && Shows(l, v, bytes, |bytes|)
    requires Within(bytes, at, U16Bytes(u))
    ensures UnitAt(v, at, u)
  {
    U16ReadsBack(bytes, at, u);
  }

  lemma {:induction false} StringShown(l: Layout, v: View, bytes: seq<Byte>, at: nat, units: seq<Unit>)
    requires l.Valid() && Shows(l, v, bytes, |bytes|) && 0 !in units
    requires Within(bytes, at, StringBytes(units))
    ensures Spells(v, at, units)
    decreases |units|
  {
    if units == [] {
      UnitShown(l, v, bytes, at, 0);
    } else {
      SplitWithin(bytes, at, U16Bytes(units[0]), StringBytes(units[1..]));
      UnitShown(l, v, bytes, at, units[0]);
      StringShown(l, v, bytes, at + 2, units[1..]);
      SpellsCons(v, at, units);
    }
  }

  lemma PutFrame(bytes: seq<Byte>, at: nat, data: seq<Byte>, other: nat, piece: seq<Byte>)
    requires at + |data| <= |bytes|
    ensures Within(Put(bytes, at, data), at, data)
    ensures Within(bytes, other, piece) && (other + |piece| <= at || at + |data| <= other) ==>
            Within(Put(bytes, at, data), other, piece)
  {
    var r := Put(bytes, at, data);
    if Within(bytes, other, piece) && (other + |piece| <= at || at + |data| <= other) {
      assert r[other..other + |piece|] == bytes[other..other + |piece|];
    }
  }

  /** `bytes` carries these field values from offset `at` on. */
  ghost predicate Carries(l: Layout, bytes: seq<Byte>, at: nat, action: I32, trigger: I32, next: nat, union: seq<Byte>) {
    && Within(bytes, at + l.action, U32Bytes(TwosComplement(action)))
    && Within(bytes, at + l.trigger, U32Bytes(TwosComplement(trigger)))
    && Within(bytes, at + l.next, U32Bytes(next % 0x1_0000_0000))
    && Within(bytes, at + l.target, union)
  }

  lemma RecordCarries(l: Layout, action: I32, trigger: I32, next: nat, union: seq<Byte>)
    requires l.Valid() && l.target + |union| <= l.recordSize
    ensures Carries(l, RecordBytes(l, action, trigger, next, union), 0, action, trigger, next, union)
  {
    var a, t := U32Bytes(TwosComplement(action)), U32Bytes(TwosComplement(trigger));
    var n := U32Bytes(next % 0x1_0000_0000);
    var b0: seq<Byte> := seq(l.recordSize, _ => 0);
    var b1 := Put(b0, l.action, a);
    var b2 := Put(b1, l.trigger, t);
    var b3 := Put(b2, l.next, n);
    PutFrame(b0, l.action, a, 0, []);
    PutFrame(b1, l.trigger, t, l.action, a);
    PutFrame(b2, l.next, n, l.action, a);
    PutFrame(b2, l.next, n, l.trigger, t);
    PutFrame(b3, l.target, union, l.action, a);
    PutFrame(b3, l.target, union, l.trigger, t);
    PutFrame(b3, l.target, union, l.next, n);
  }

  lemma CarriesWithin(
    l: Layout, whole: seq<Byte>, at: nat, part: seq<Byte>, action: I32, trigger: I32, next: nat, union: seq<Byte>)
    requires Within(whole, at, part) && Carries(l, part, 0, action, trigger, next, union)
    ensures Carries(l, whole, at, action, trigger, next, union)
  {
    WithinTrans(whole, at, part, l.action, U32Bytes(TwosComplement(action)));
    WithinTrans(whole, at, part, l.trigger, U32Bytes(TwosComplement(trigger)));
    WithinTrans(whole, at, part, l.next, U32Bytes(next % 0x1_0000_0000));
    WithinTrans(whole, at, part, l.target, union);
  }

  lemma ChunkCarries(l: Layout, base: nat, bytes: seq<Byte>, at: nat, filter: RawFilter, next: nat)
    requires l.Valid() && Within(bytes, at, Chunk(l, base, at, filter, next))
    ensures Carries(l, bytes, at, filter.action, Trigger(l, filter.target), next,
                    Union(l, base + at + l.recordSize, filter.target))
    ensures Within(bytes, at + l.recordSize, Trailer(filter.target))
  {
    var trigger, union := Trigger(l, filter.target), Union(l, base + at + l.recordSize, filter.target);
    var record := RecordBytes(l, filter.action, trigger, next, union);
    RecordCarries(l, filter.action, trigger, next, union);
    SplitWithin(bytes, at, record, Trailer(filter.target));
    CarriesWithin(l, bytes, at, record, filter.action, trigger, next, union);
  }

  predicate NulFree(target: RawTarget) {
    match target
    case Executable(path) => 0 !in path
    case Process(_) => true
    case Service(name) => 0 !in name
  }

  function Text(target: RawTarget): seq<Unit>
    requires !target.Process?
  {
    if target.Executable? then target.path else target.name
  }

  lemma FieldsShown(
    l: Layout, v: View, bytes: seq<Byte>, at: nat, action: I32, trigger: I32, next: U32, union: seq<Byte>)
    requires l.Valid() && Shows(l, v, bytes, |bytes|)
    requires Carries(l, bytes, at, action, trigger, next, union)
    ensures var record := RecordIn(l, v, at);
            record.action == action && record.trigger == trigger && record.next == next
  {
    DwordShown(l, v, bytes, at + l.action, TwosComplement(action));
    DwordShown(l, v, bytes, at + l.trigger, TwosComplement(trigger));
    DwordShown(l, v, bytes, at + l.next, next);
    SignReadsBack(action);
    SignReadsBack(trigger);
  }

  /** What the parser needs to see of a target: the process itself, or the pointer and the text behind it. */
  ghost predicate TargetSeen(l: Layout, v: View, at: nat, target: RawTarget) {
    var record, body := RecordIn(l, v, at), at + l.recordSize;
    if target.Process? then record.process == target.process
    else record.pointer == v.base + body && Spells(v, body, Text(target))
  }

  lemma TargetShown(l: Layout, v: View, bytes: seq<Byte>, at: nat, target: RawTarget)
    requires l.Valid() && Shows(l, v, bytes, |bytes|) && v.End() <= l.MaxUsize()
    requires NulFree(target) && at + l.recordSize <= |bytes|
    requires Within(bytes, at + l.target, Union(l, v.base + at + l.recordSize, target))
    requires Within(bytes, at + l.recordSize, Trailer(target))
    ensures TargetSeen(l, v, at, target)
  {
    if target.Process? {
      ProcessShown(l, v, bytes, at + l.target, target.process);
    } else {
      PointerShown(l, v, bytes, at + l.target, v.base + at + l.recordSize);
      StringShown(l, v, bytes, at + l.recordSize, Text(target));
    }
  }

  lemma TargetMeant(l: Layout, v: View, at: nat, target: RawTarget)
    requires l.Valid() && (v.base + at) % 2 == 0 && TargetSeen(l, v, at, target)
    requires RecordIn(l, v, at).trigger == Trigger(l, target)
    ensures TargetAt(l, v, RecordIn(l, v, at), target)
  {
    if !target.Process? {
      var pointer := v.base + at + l.recordSize;
      assert pointer - v.base == at + l.recordSize;
      assert StringAt(v, pointer, Text(target));
    }
  }

  /** A chunk at an even address decodes to the filter it was written for. */
  lemma ChunkDecodes(
    l: Layout, reserve: nat -> bool, v: View, bytes: seq<Byte>, at: nat, filter: RawFilter, next: U32)
    requires l.Valid() && Shows(l, v, bytes, |bytes|) && v.End() <= l.MaxUsize() && (v.base + at) % 2 == 0
    requires Within(bytes, at, Chunk(l, v.base, at, filter, next)) && NulFree(filter.target)
    requires forall n: nat :: reserve(n)
    ensures RecordOf(l, reserve, v, at) == Ok((filter, next))
  {
    ChunkCarries(l, v.base, bytes, at, filter, next);
    FieldsShown(l, v, bytes, at, filter.action, Trigger(l, filter.target), next,
                Union(l, v.base + at + l.recordSize, filter.target));
    TargetShown(l, v, bytes, at, filter.target);
    TargetMeant(l, v, at, filter.target);
    TargetExact(l, reserve, v, at, filter.target);
  }

  // ----- The round trip -----

  function Sound(): RawFilter -> bool {
    (filter: RawFilter) => NulFree(filter.target)
  }

  lemma ChunksAreSized(l: Layout, base: nat)
    requires l.Valid()
    ensures Sized(Chunks(l, base), Sizes(l))
    ensures forall filter: RawFilter :: Sizes(l)(filter) >= l.recordSize && Sizes(l)(filter) % 2 == 0
  {}

  lemma SizeShown(l: Layout, v: View, bytes: seq<Byte>)
    requires l.Valid() && Shows(l, v, bytes, |bytes|)
    ensures v.size == |bytes|
  {}

  lemma ChunkIsRead(
    l: Layout, reserve: nat -> bool, v: View, bytes: seq<Byte>, at: nat, filter: RawFilter, next: nat)
    requires l.Valid() && Shows(l, v, bytes, |bytes|) && v.base % 2 == 0
    requires v.End() <= l.MaxUsize() && v.size < 0x1_0000_0000
    requires forall n: nat :: reserve(n)
    requires at % 2 == 0 && next <= |bytes| && NulFree(filter.target)
    requires Within(bytes, at, Chunk(l, v.base, at, filter, next))
    ensures Decoder(l, reserve, v)(at) == Ok((filter, next))
  {
    hide RecordOf, Shows, Chunk, Within, NulFree;
    SizeShown(l, v, bytes);
    ChunkDecodes(l, reserve, v, bytes, at, filter, next);
  }

  lemma ChunksReadBack(l: Layout, reserve: nat -> bool, v: View, bytes: seq<Byte>)
    requires l.Valid() && Shows(l, v, bytes, |bytes|) && v.base % 2 == 0
    requires v.End() <= l.MaxUsize() && v.size < 0x1_0000_0000
    requires forall n: nat :: reserve(n)
    ensures ReadsBack(Decoder(l, reserve, v), l.recordSize, bytes, Chunks(l, v.base), Sizes(l), Sound())
  {
    hide Shows, Decoder, Within, NulFree, Chunk, ChunkSize;
    ChunksAreSized(l, v.base);
    forall at: nat, filter: RawFilter, next: nat
      ensures at % 2 == 0 && Sound()(filter) && next <= |bytes| && Within(bytes, at, Chunks(l, v.base)(at, filter, next)) ==>
                Decoder(l, reserve, v)(at) == Ok((filter, next))
    {
      if at % 2 == 0 && Sound()(filter) && next <= |bytes| && Within(bytes, at, Chunks(l, v.base)(at, filter, next)) {
        ChunkIsRead(l, reserve, v, bytes, at, filter, next);
      }
    }
  }

  /** The parser returns exactly the list that was written, whatever the list, the layout and the address. */
  lemma ParseEncoded(l: Layout, reserve: nat -> bool, base: nat, filters: seq<RawFilter>)
    requires l.Valid() && base % 2 == 0
    requires EncodedSize(l, filters) < 0x1_0000_0000 && base + EncodedSize(l, filters) <= l.MaxUsize()
    requires forall i | 0 <= i < |filters| :: NulFree(filters[i].target)
    requires forall n: nat :: reserve(n)
    ensures Parse(l, reserve, ViewOf(l, base, Encode(l, base, filters))) == Ok(filters)
    ensures |Encode(l, base, filters)| == EncodedSize(l, filters)
  {
    var bytes := Encode(l, base, filters);
    var v, chunk, size := ViewOf(l, base, bytes), Chunks(l, base), Sizes(l);
    LinkedSize(chunk, size, 0, filters);
    if filters != [] {
      assert bytes[..|bytes|] == bytes && bytes[0..] == bytes;
      ViewShows(l, base, bytes, |bytes|);
      ChunksReadBack(l, reserve, v, bytes);
      LinkedReadsBack(Decoder(l, reserve, v), MalformedOutput, l.recordSize, bytes, chunk, size, Sound(), 0, filters);
    }
  }
}
