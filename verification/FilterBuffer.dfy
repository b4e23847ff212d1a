/**
  The parser of the buffer that RmGetFilterList fills: an offset-linked list of fixed records whose
  strings are absolute pointers back into the same buffer.

  Memory is a base address and the bytes that start there. The structure layout, the width of `usize`
  and the trigger values are parameters, so the results hold for 32-bit and 64-bit Windows alike.
 */
module FilterBuffer {
  import opened NativeTypes
  import opened Wrappers
  import opened LinkedRecords

  /** RM_FILTER_INFO as the target lays it out; `target` is the offset of the union. */
  datatype Layout = Layout(
    word: nat, recordSize: nat,
    action: nat, trigger: nat, next: nat, target: nat,
    file: I32, process: I32, service: I32)
  {
    ghost predicate Valid() {
      && (word == 4 || word == 8)
      && action + 4 <= trigger && trigger + 4 <= next && next + 4 <= target
      && target + word <= recordSize && target + 12 <= recordSize && recordSize % 2 == 0
      && recordSize < 0x1_0000
      && file != process && file != service && process != service
      && file != 0 && process != 0 && service != 0
    }

    function MaxUsize(): nat {
      if word == 4 then 0xFFFF_FFFF else 0xFFFF_FFFF_FFFF_FFFF
    }

    function CheckedAdd(a: nat, b: nat): Option<nat> {
      if a + b <= MaxUsize() then Some(a + b) else None
    }
  }

  const LAYOUT_X64 := Layout(8, 32, 0, 4, 8, 16, 1, 2, 3)
  const LAYOUT_X86 := Layout(4, 24, 0, 4, 8, 12, 1, 2, 3)

  lemma WindowsLayoutsAreValid()
    ensures LAYOUT_X64.Valid() && LAYOUT_X86.Valid()
  {}

  datatype UniqueProcess = UniqueProcess(pid: U32, startTime: U64)

  datatype RawTarget =
    | Executable(path: seq<Unit>)
    | Process(process: UniqueProcess)
    | Service(name: seq<Unit>)

  datatype RawFilter = RawFilter(target: RawTarget, action: I32)

  datatype FileTime = FileTime(low: U32, high: U32)

  function FileTimeToU64(t: FileTime): U64 {
    var low: nat, high: nat := t.low, t.high;
    high * 0x1_0000_0000 + low
  }

  function U64ToFileTime(value: U64): FileTime {
    FileTime(value % 0x1_0000_0000, value / 0x1_0000_0000)
  }

  // ----- Reading memory. `limit` is the number of bytes that may be looked at. -----

  /** The 64-bit time has the two halves where FILETIME says. */
  lemma HalvesInPlace(t: FileTime)
    ensures FileTimeToU64(t) % 0x1_0000_0000 == t.low && FileTimeToU64(t) / 0x1_0000_0000 == t.high
  {}

  function ReadU16(bytes: seq<Byte>, limit: nat, at: nat): Unit
    requires at + 2 <= limit <= |bytes|
  {
    var low: nat, high: nat := bytes[at], bytes[at + 1];
    low + 0x100 * high
  }

  function ReadU32(bytes: seq<Byte>, limit: nat, at: nat): U32
    requires at + 4 <= limit <= |bytes|
  {
    var low: nat, high: nat := ReadU16(bytes, limit, at), ReadU16(bytes, limit, at + 2);
    low + 0x1_0000 * high
  }

  function ReadUsize(l: Layout, bytes: seq<Byte>, limit: nat, at: nat): nat
    requires l.Valid()
    requires at + l.word <= limit <= |bytes|
  {
    if l.word == 4 then ReadU32(bytes, limit, at)
    else
      var low: nat, high: nat := ReadU32(bytes, limit, at), ReadU32(bytes, limit, at + 4);
      low + 0x1_0000_0000 * high
  }

  /** Numbers are read in the byte order of the machine, the lowest byte first. */
  lemma LittleEndian(l: Layout, bytes: seq<Byte>, limit: nat, at: nat)
    requires l.Valid() && at + l.word <= limit <= |bytes|
    ensures ReadU16(bytes, limit, at) % 0x100 == bytes[at] && ReadU16(bytes, limit, at) / 0x100 == bytes[at + 1]
    ensures ReadU32(bytes, limit, at) % 0x1_0000 == ReadU16(bytes, limit, at)
    ensures ReadU32(bytes, limit, at) / 0x1_0000 == ReadU16(bytes, limit, at + 2)
    ensures l.word == 4 ==> ReadUsize(l, bytes, limit, at) == ReadU32(bytes, limit, at)
    ensures l.word == 8 ==>
              && ReadUsize(l, bytes, limit, at) % 0x1_0000_0000 == ReadU32(bytes, limit, at)
              && ReadUsize(l, bytes, limit, at) / 0x1_0000_0000 == ReadU32(bytes, limit, at + 4)
  {}

  // ----- What a buffer means -----

  /**
    The valid part of a buffer as the parser sees it: where it lies, how long it is, and what an unaligned
    read of 16 bits, 32 bits or one pointer yields at each offset.
   */
  datatype View = View(base: nat, size: nat, unit: nat -> Unit, dword: nat -> U32, pointer: nat -> nat)
  {
    function End(): nat { base + size }
  }

  /** The view of `bytes` at address `base`. Reads beyond its end are never asked for. */
  function ViewOf(l: Layout, base: nat, bytes: seq<Byte>): View
    requires l.Valid()
  {
    View(base, |bytes|,
         (at: nat) => if at + 2 <= |bytes| then ReadU16(bytes, |bytes|, at) else 0,
         (at: nat) => if at + 4 <= |bytes| then ReadU32(bytes, |bytes|, at) else 0,
         (at: nat) => if at + l.word <= |bytes| then ReadUsize(l, bytes, |bytes|, at) else 0)
  }

  /** `v` shows the first `limit` bytes. The triggers keep a read of `v` from unfolding into bytes. */
  ghost predicate Shows(l: Layout, v: View, bytes: seq<Byte>, limit: nat)
    requires l.Valid()
  {
    && v.size == limit <= |bytes|
    && (forall at: nat {:trigger ReadU16(bytes, limit, at)} ::
          at + 2 <= limit ==> v.unit(at) == ReadU16(bytes, limit, at))
    && (forall at: nat {:trigger ReadU32(bytes, limit, at)} ::
          at + 4 <= limit ==> v.dword(at) == ReadU32(bytes, limit, at))
    && (forall at: nat {:trigger ReadUsize(l, bytes, limit, at)} ::
          at + l.word <= limit ==> v.pointer(at) == ReadUsize(l, bytes, limit, at))
  }

  lemma ViewShows(l: Layout, base: nat, bytes: seq<Byte>, limit: nat)
    requires l.Valid() && limit <= |bytes|
    ensures Shows(l, ViewOf(l, base, bytes[..limit]), bytes, limit)
  {
    var v, part := ViewOf(l, base, bytes[..limit]), bytes[..limit];
    forall at: nat | at + 2 <= limit
      ensures v.unit(at) == ReadU16(bytes, limit, at)
    {
    }
    forall at: nat | at + 4 <= limit
      ensures v.dword(at) == ReadU32(bytes, limit, at)
    {
    }
    forall at: nat | at + l.word <= limit
      ensures v.pointer(at) == ReadUsize(l, bytes, limit, at)
    {
    }
  }

  function AsI32(n: U32): I32 {
    if n < 0x8000_0000 then n else n - 0x1_0000_0000
  }

  datatype Record = Record(action: I32, trigger: I32, next: U32, pointer: nat, process: UniqueProcess)

  /** One record, read as a whole. Both readings of the union are kept; `trigger` selects one. */
  function RecordIn(l: Layout, v: View, at: nat): Record {
    var union := at + l.target;
    Record(
      AsI32(v.dword(at + l.action)),
      AsI32(v.dword(at + l.trigger)),
      v.dword(at + l.next),
      v.pointer(union),
      UniqueProcess(v.dword(union), FileTimeToU64(FileTime(v.dword(union + 4), v.dword(union + 8)))))
  }

  /** The two bytes at offset `at` lie inside the view and hold `unit`. */
  ghost predicate UnitAt(v: View, at: nat, unit: Unit) {
    at + 2 <= v.size && v.unit(at) == unit
  }

  /** From offset `at` on, the view holds `units`, none of them zero, and then a zero. */
  ghost predicate Spells(v: View, at: nat, units: seq<Unit>) {
    && (forall k | 0 <= k < |units| :: units[k] != 0 && UnitAt(v, at + 2 * k, units[k]))
    && UnitAt(v, at + 2 * |units|, 0)
  }

  /** `units` is the NUL-terminated string at absolute address `pointer`, wholly inside the view. */
  ghost predicate StringAt(v: View, pointer: nat, units: seq<Unit>) {
    pointer != 0 && v.base <= pointer && pointer % 2 == 0 && Spells(v, pointer - v.base, units)
  }

  ghost predicate TargetAt(l: Layout, v: View, record: Record, target: RawTarget) {
    match target
    case Executable(path) => record.trigger == l.file && StringAt(v, record.pointer, path)
    case Process(process) => record.trigger == l.process && process == record.process
    case Service(name) => record.trigger == l.service && StringAt(v, record.pointer, name)
  }

  /** A whole record at offset `at` stands for `filter` and names `next` as the distance to its successor. */
  ghost predicate RecordAt(l: Layout, v: View, at: nat, filter: RawFilter, next: int)
    requires l.Valid()
  {
    && at + l.recordSize <= v.size
    && TargetAt(l, v, RecordIn(l, v, at), filter.target)
    && filter.action == RecordIn(l, v, at).action
    && next == RecordIn(l, v, at).next
  }

  /** The record at `at` has no string, or the allocator grants one unit per two bytes up to the end. */
  ghost predicate Granted(l: Layout, reserve: nat -> bool, v: View, at: nat)
    requires l.Valid()
  {
    && at + l.recordSize <= v.size
    && var record := RecordIn(l, v, at);
    && (record.trigger == l.process || record.pointer > v.End() || reserve((v.End() - record.pointer) / 2))
  }

  ghost function Means(l: Layout, reserve: nat -> bool, v: View): Meaning<RawFilter>
    requires l.Valid()
  {
    (at: nat, filter: RawFilter, next: int) => RecordAt(l, v, at, filter, next) && Granted(l, reserve, v, at)
  }

  /**
    The view holds a well-formed chain that starts at offset 0 and decodes to `filters`; the empty view
    holds no filter at all.
   */
  ghost predicate Holds(l: Layout, reserve: nat -> bool, v: View, filters: seq<RawFilter>)
    requires l.Valid()
  {
    if v.size == 0 then filters == [] else
    && v.End() <= l.MaxUsize()
    && exists offsets: seq<nat> ::
         Chain(Means(l, reserve, v), l.recordSize, offsets, filters) && offsets[0] == 0
  }

  // ----- The parser as a function, on unbounded integers -----

  function Units(v: View, at: nat): Option<seq<Unit>>
    decreases v.size - at
  {
    if at + 2 > v.size then None
    else if v.unit(at) == 0 then Some([])
    else match Units(v, at + 2)
      case None => None
      case Some(rest) => Some([v.unit(at)] + rest)
  }

  function StringOf(reserve: nat -> bool, v: View, pointer: nat): SysResult<seq<Unit>> {
    if pointer == 0 || pointer < v.base || pointer >= v.End() || pointer % 2 != 0 then Err(MalformedOutput)
    else if !reserve((v.End() - pointer) / 2) then Err(AllocationFailure)
    else match Units(v, pointer - v.base)
      case None => Err(MalformedOutput)
      case Some(units) => Ok(units)
  }

  function TargetOf(l: Layout, reserve: nat -> bool, v: View, record: Record): SysResult<RawTarget> {
    if record.trigger == l.file then
      match StringOf(reserve, v, record.pointer) case Ok(s) => Ok(Executable(s)) case Err(e) => Err(e)
    else if record.trigger == l.process then Ok(Process(record.process))
    else if record.trigger == l.service then
      match StringOf(reserve, v, record.pointer) case Ok(s) => Ok(Service(s)) case Err(e) => Err(e)
    else Err(MalformedOutput)
  }

  /** The record at `at`: its filter and the distance to the next one. */
  function RecordOf(l: Layout, reserve: nat -> bool, v: View, at: nat): SysResult<(RawFilter, nat)>
    requires l.Valid()
  {
    if at + l.recordSize > v.size then Err(MalformedOutput) else
    match TargetOf(l, reserve, v, RecordIn(l, v, at))
    case Err(e) => Err(e)
    case Ok(target) => Ok((RawFilter(target, RecordIn(l, v, at).action), RecordIn(l, v, at).next))
  }

  function Decoder(l: Layout, reserve: nat -> bool, v: View): nat -> SysResult<(RawFilter, nat)>
    requires l.Valid()
  {
    (at: nat) => RecordOf(l, reserve, v, at)
  }

  function FiltersFrom(l: Layout, reserve: nat -> bool, v: View, at: nat): SysResult<seq<RawFilter>>
    requires l.Valid()
  {
    Follow(Decoder(l, reserve, v), MalformedOutput, l.recordSize, v.size, at)
  }

  function Parse(l: Layout, reserve: nat -> bool, v: View): SysResult<seq<RawFilter>>
    requires l.Valid()
  {
    if v.size == 0 then Ok([])
    else if v.End() > l.MaxUsize() then Err(MalformedOutput)
    else FiltersFrom(l, reserve, v, 0)
  }

  // ----- Soundness and completeness -----

  lemma SpellsCons(v: View, at: nat, units: seq<Unit>)
    requires units != []
    ensures Spells(v, at, units) <==>
            units[0] != 0 && UnitAt(v, at, units[0]) && Spells(v, at + 2, units[1..])
  {
    if Spells(v, at, units) {
      assert UnitAt(v, at + 2 * 0, units[0]);
      forall k | 0 <= k < |units| - 1
        ensures units[1..][k] != 0 && UnitAt(v, at + 2 + 2 * k, units[1..][k])
      {
        assert UnitAt(v, at + 2 * (k + 1), units[k + 1]);
      }
    }
    if units[0] != 0 && UnitAt(v, at, units[0]) && Spells(v, at + 2, units[1..]) {
      forall k | 0 <= k < |units|
        ensures units[k] != 0 && UnitAt(v, at + 2 * k, units[k])
      {
        if k > 0 {
          assert UnitAt(v, at + 2 + 2 * (k - 1), units[1..][k - 1]);
        }
      }
    }
  }

  lemma {:induction false} UnitsExact(v: View, at: nat, units: seq<Unit>)
    ensures Units(v, at) == Some(units) <==> Spells(v, at, units)
    decreases v.size - at
  {
    if units != [] {
      SpellsCons(v, at, units);
      if at + 2 <= v.size {
        UnitsExact(v, at + 2, units[1..]);
        assert units == [units[0]] + units[1..];
      }
    }
  }

  /** A string is read exactly when the memory holds it and its reservation is granted. */
  lemma StringExact(reserve: nat -> bool, v: View, pointer: nat, units: seq<Unit>)
    ensures StringOf(reserve, v, pointer) == Ok(units) <==>
            StringAt(v, pointer, units) && reserve((v.End() - pointer) / 2)
  {
    if pointer != 0 && v.base <= pointer < v.End() && pointer % 2 == 0 {
      UnitsExact(v, pointer - v.base, units);
    }
  }

  lemma TargetExact(l: Layout, reserve: nat -> bool, v: View, at: nat, target: RawTarget)
    requires l.Valid() && at + l.recordSize <= v.size
    ensures TargetOf(l, reserve, v, RecordIn(l, v, at)) == Ok(target) <==>
            TargetAt(l, v, RecordIn(l, v, at), target) && Granted(l, reserve, v, at)
  {
    var record := RecordIn(l, v, at);
    match target {
      case Executable(path) => StringExact(reserve, v, record.pointer, path);
      case Process(_) =>
      case Service(name) => StringExact(reserve, v, record.pointer, name);
    }
  }

  lemma RecordExact(l: Layout, reserve: nat -> bool, v: View)
    requires l.Valid()
    ensures Decodes(Decoder(l, reserve, v), Means(l, reserve, v), l.recordSize, v.size)
  {
    var decode, means := Decoder(l, reserve, v), Means(l, reserve, v);
    forall at: nat, filter: RawFilter, next: int
      ensures means(at, filter, next) <==> next >= 0 && decode(at) == Ok((filter, next))
    {
      if at + l.recordSize <= v.size {
        TargetExact(l, reserve, v, at, filter.target);
        assert filter == RawFilter(filter.target, filter.action);
      }
    }
  }

  /** The parser accepts exactly the well-formed buffers and returns exactly what they hold. */
  lemma ParseExact(l: Layout, reserve: nat -> bool, v: View, filters: seq<RawFilter>)
    requires l.Valid()
    ensures Parse(l, reserve, v) == Ok(filters) <==> Holds(l, reserve, v, filters)
  {
    RecordExact(l, reserve, v);
    var decode, means := Decoder(l, reserve, v), Means(l, reserve, v);
    if Parse(l, reserve, v) == Ok(filters) && v.size != 0 {
      var offsets := ChainOf(decode, means, MalformedOutput, l.recordSize, v.size, 0, filters);
    }
    if Holds(l, reserve, v, filters) && v.size != 0 {
      var offsets: seq<nat> :| Chain(means, l.recordSize, offsets, filters) && offsets[0] == 0;
      ChainFollowed(decode, means, MalformedOutput, l.recordSize, v.size, offsets, filters);
    }
  }

  // ----- Which error -----

  /** A string that lies in range fails for want of memory exactly if its reservation is refused. */
  lemma StringFails(reserve: nat -> bool, v: View, pointer: nat)
    ensures StringOf(reserve, v, pointer) == Err(AllocationFailure) <==>
            && pointer != 0 && v.base <= pointer < v.End() && pointer % 2 == 0
            && !reserve((v.End() - pointer) / 2)
    ensures StringOf(reserve, v, pointer).Err? ==>
              StringOf(reserve, v, pointer).error == AllocationFailure || StringOf(reserve, v, pointer).error == MalformedOutput
  {}

  /** A whole record with a string fails for want of memory exactly as its string does; all else is malformed. */
  lemma RecordFails(l: Layout, reserve: nat -> bool, v: View, at: nat)
    requires l.Valid()
    ensures
      var record := RecordIn(l, v, at);
      RecordOf(l, reserve, v, at) == Err(AllocationFailure) <==>
        && at + l.recordSize <= v.size && (record.trigger == l.file || record.trigger == l.service)
        && StringOf(reserve, v, record.pointer) == Err(AllocationFailure)
    ensures RecordOf(l, reserve, v, at).Err? ==>
              RecordOf(l, reserve, v, at).error == AllocationFailure || RecordOf(l, reserve, v, at).error == MalformedOutput
  {
    StringFails(reserve, v, RecordIn(l, v, at).pointer);
  }

  /**
    The records up to the first one that fails lie at `offsets`: the parser fails as that record does, and a link
    that does not leave its record is malformed.
   */
  lemma ParseFails(l: Layout, reserve: nat -> bool, v: View, offsets: seq<nat>, error: SysError)
    requires l.Valid() && v.size > 0 && v.End() <= l.MaxUsize() && offsets != [] && offsets[0] == 0
    requires forall i: nat | i + 1 < |offsets| :: LinksOn(Decoder(l, reserve, v), l.recordSize, offsets, i)
    requires
      var last := RecordOf(l, reserve, v, offsets[|offsets| - 1]);
      last == Err(error) || (last.Ok? && 0 < last.value.1 < l.recordSize && error == MalformedOutput)
    ensures Parse(l, reserve, v) == Err(error)
  {
    forall i: nat | i + 1 < |offsets| ensures offsets[i] <= v.size {
      assert LinksOn(Decoder(l, reserve, v), l.recordSize, offsets, i);
    }
    FirstFailureWins(Decoder(l, reserve, v), MalformedOutput, l.recordSize, v.size, offsets, error);
  }

  /** Records do not overlap, so there are at most `byte_len / record_size` of them. */
  lemma FilterCountBounded(l: Layout, reserve: nat -> bool, v: View)
    requires l.Valid()
    ensures var r := Parse(l, reserve, v); r.Ok? ==> |r.value| * l.recordSize <= v.size
  {
    CountBounded(Decoder(l, reserve, v), MalformedOutput, l.recordSize, v.size, 0);
  }

  /** A string takes two bytes a unit and two for the terminator: it never outgrows its reservation. */
  lemma {:induction false} UnitsBounded(v: View, at: nat)
    ensures var r := Units(v, at); r.Some? ==> at + 2 * |r.value| + 2 <= v.size
    decreases v.size - at
  {
    if at + 2 <= v.size {
      UnitsBounded(v, at + 2);
    }
  }

  // ----- The parser as the source runs it, on machine integers and raw addresses -----

  /** AlignedBuffer: the address of its words and their bytes. */
  datatype Buffer = Buffer(base: nat, bytes: seq<Byte>)

  /** The part of the buffer that counts. Nothing outside it, padding included, is ever read. */
  function ValidPart(l: Layout, buffer: Buffer, byteLen: nat): View
    requires l.Valid() && byteLen <= |buffer.bytes|
  {
    ViewOf(l, buffer.base, buffer.bytes[..byteLen])
  }

  ghost function PrependUnits(before: seq<Unit>, rest: Option<seq<Unit>>): Option<seq<Unit>> {
    match rest case None => None case Some(units) => Some(before + units)
  }

  lemma PrependNoUnits(rest: Option<seq<Unit>>)
    ensures PrependUnits([], rest) == rest
  {
    if rest.Some? { assert [] + rest.value == rest.value; }
  }

  lemma PrependUnitsAssociates(before: seq<Unit>, unit: Unit, rest: Option<seq<Unit>>)
    ensures PrependUnits(before, PrependUnits([unit], rest)) == PrependUnits(before + [unit], rest)
  {
    if rest.Some? { assert before + ([unit] + rest.value) == before + [unit] + rest.value; }
  }

  method ReadBufferString(l: Layout, reserve: nat -> bool, buffer: Buffer, byteLen: nat, ghost v: View, pointer: nat)
    returns (r: SysResult<seq<Unit>>)
    requires l.Valid() && Shows(l, v, buffer.bytes, byteLen) && v.base == buffer.base
    requires buffer.base + byteLen <= l.MaxUsize()
    ensures r == StringOf(reserve, v, pointer)
  {
    var base, end := buffer.base, buffer.base + byteLen;
    var start := pointer;
    if pointer == 0 || start < base || start >= end {
      return Err(MalformedOutput);
    }
    if start % 2 != 0 {
      return Err(MalformedOutput);
    }
    var capacity := (end - start) / 2;
    if !reserve(capacity) {
      return Err(AllocationFailure);
    }
    var units: seq<Unit> := [];
    var cursor := start;
    PrependNoUnits(Units(v, start - base));
    while true
      invariant start <= cursor <= end && cursor == start + 2 * |units|
      invariant Units(v, start - base) == PrependUnits(units, Units(v, cursor - base))
      decreases end - cursor
    {
      var unitEnd := l.CheckedAdd(cursor, 2);
      if unitEnd == None || unitEnd.value > end {
        return Err(MalformedOutput);
      }
      var unit := ReadU16(buffer.bytes, byteLen, cursor - base);
      assert unit == v.unit(cursor - base);
      if unit == 0 {
        break;
      }
      assert |units| < capacity;
      PrependUnitsAssociates(units, unit, Units(v, cursor + 2 - base));
      units := units + [unit];
      cursor := unitEnd.value;
    }
    assert units + [] == units;
    return Ok(units);
  }

  method ReadDword(l: Layout, buffer: Buffer, byteLen: nat, ghost v: View, at: nat) returns (n: U32)
    requires l.Valid() && Shows(l, v, buffer.bytes, byteLen)
    requires at + 4 <= byteLen
    ensures n == v.dword(at)
  {
    n := ReadU32(buffer.bytes, byteLen, at);
  }

  method ReadPointer(l: Layout, buffer: Buffer, byteLen: nat, ghost v: View, at: nat) returns (n: nat)
    requires l.Valid() && Shows(l, v, buffer.bytes, byteLen)
    requires at + l.word <= byteLen
    ensures n == v.pointer(at)
  {
    n := ReadUsize(l, buffer.bytes, byteLen, at);
  }

  /** The record at `at`, read from memory field by field, never beyond the bytes that count. */
  method ReadRecord(l: Layout, buffer: Buffer, byteLen: nat, ghost v: View, at: nat) returns (record: Record)
    requires l.Valid() && Shows(l, v, buffer.bytes, byteLen)
    requires at + l.recordSize <= byteLen
    ensures record == RecordIn(l, v, at)
  {
    var action := ReadDword(l, buffer, byteLen, v, at + l.action);
    var trigger := ReadDword(l, buffer, byteLen, v, at + l.trigger);
    var next := ReadDword(l, buffer, byteLen, v, at + l.next);
    var pointer := ReadPointer(l, buffer, byteLen, v, at + l.target);
    var pid := ReadDword(l, buffer, byteLen, v, at + l.target);
    var low := ReadDword(l, buffer, byteLen, v, at + l.target + 4);
    var high := ReadDword(l, buffer, byteLen, v, at + l.target + 8);
    record := Record(AsI32(action), AsI32(trigger), next, pointer,
                     UniqueProcess(pid, FileTimeToU64(FileTime(low, high))));
  }

  /** The part of the loop body that reads one record, already known to lie inside the buffer. */
  method ReadFilter(l: Layout, reserve: nat -> bool, buffer: Buffer, byteLen: nat, ghost v: View, offset: nat)
    returns (r: SysResult<(RawFilter, nat)>)
    requires l.Valid() && Shows(l, v, buffer.bytes, byteLen) && v.base == buffer.base
    requires buffer.base + byteLen <= l.MaxUsize()
    requires offset + l.recordSize <= byteLen
    ensures r == RecordOf(l, reserve, v, offset)
  {
    var record := ReadRecord(l, buffer, byteLen, v, offset);
    var target: RawTarget;
    if record.trigger == l.file {
      var path := ReadBufferString(l, reserve, buffer, byteLen, v, record.pointer);
      if path.Err? {
        return Err(path.error);
      }
      target := Executable(path.value);
    } else if record.trigger == l.process {
      target := Process(record.process);
    } else if record.trigger == l.service {
      var name := ReadBufferString(l, reserve, buffer, byteLen, v, record.pointer);
      if name.Err? {
        return Err(name.error);
      }
      target := Service(name.value);
    } else {
      return Err(MalformedOutput);
    }
    return Ok((RawFilter(target, record.action), record.next));
  }

  /** The parser's loop. `decode` is the decoder of the valid part, named so that its body stays out of the proof. */
  method ParseRecords(
    l: Layout, reserve: nat -> bool, buffer: Buffer, byteLen: nat,
    ghost v: View, ghost decode: nat -> SysResult<(RawFilter, nat)>)
    returns (r: SysResult<seq<RawFilter>>)
    requires l.Valid() && Shows(l, v, buffer.bytes, byteLen) && v.base == buffer.base
    requires buffer.base + byteLen <= l.MaxUsize()
    requires forall at: nat {:trigger RecordOf(l, reserve, v, at)} :: decode(at) == RecordOf(l, reserve, v, at)
    ensures r == Follow(decode, MalformedOutput, l.recordSize, byteLen, 0)
  {
    var offset := 0;
    var filters := [];
    PrependNone(Follow(decode, MalformedOutput, l.recordSize, byteLen, 0));
    while true
      invariant offset <= l.MaxUsize()
      invariant Follow(decode, MalformedOutput, l.recordSize, byteLen, 0) ==
                Prepend(filters, Follow(decode, MalformedOutput, l.recordSize, byteLen, offset))
      decreases byteLen - offset
    {
      var recordEnd := l.CheckedAdd(offset, l.recordSize);
      if recordEnd == None || recordEnd.value > byteLen {
        assert RecordOf(l, reserve, v, offset) == Err(MalformedOutput);
        return Err(MalformedOutput);
      }
      var record := ReadFilter(l, reserve, buffer, byteLen, v, offset);
      if record.Err? {
        return Err(record.error);
      }
      // usize::try_from cannot fail on cbNextOffset: usize is at least 32 bits wide.
      var (filter, next) := record.value;
      ghost var before := filters;
      filters := filters + [filter];
      if next == 0 {
        break;
      }
      if next < l.recordSize {
        return Err(MalformedOutput);
      }
      var sum := l.CheckedAdd(offset, next);
      FollowStep(decode, MalformedOutput, l.recordSize, byteLen, offset, before, filter, next);
      if sum == None {
        return Err(MalformedOutput);
      }
      offset := sum.value;
    }
    return Ok(filters);
  }

  method ParseFilterBuffer(l: Layout, reserve: nat -> bool, buffer: Buffer, byteLen: nat)
    returns (r: SysResult<seq<RawFilter>>)
    requires l.Valid()
    ensures byteLen > |buffer.bytes| ==> r == Err(MalformedOutput)
    ensures byteLen <= |buffer.bytes| ==> r == Parse(l, reserve, ValidPart(l, buffer, byteLen))
    ensures r.Ok? ==> |r.value| * l.recordSize <= byteLen
  {
    if byteLen == 0 {
      return Ok([]);
    }
    if byteLen > |buffer.bytes| {
      return Err(MalformedOutput);
    }
    ghost var v := ValidPart(l, buffer, byteLen);
    if byteLen < l.recordSize {
      assert RecordOf(l, reserve, v, 0) == Err(MalformedOutput);
      return Err(MalformedOutput);
    }
    var end := l.CheckedAdd(buffer.base, byteLen);
    if end == None {
      return Err(MalformedOutput);
    }
    ViewShows(l, buffer.base, buffer.bytes, byteLen);
    r := ParseRecords(l, reserve, buffer, byteLen, v, Decoder(l, reserve, v));
    FilterCountBounded(l, reserve, v);
  }
}
