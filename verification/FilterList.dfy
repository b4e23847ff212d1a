/**
  The retry loop around RmGetFilterList. The OS is an oracle: for the n-th call and the supplied length
  it gives a code, the length it reports and the bytes it writes.
 */
module FilterList {
  import opened NativeTypes
  import opened Wrappers
  import opened LinkedRecords
  import opened FilterBuffer
  import opened FilterEncoding
  import opened Filters

  const MAX_LIST_ATTEMPTS: nat := 8

  datatype FilterReply = FilterReply(code: nat, needed: U32, written: seq<Byte>)

  /** The machine: layout, OS, where the n-th buffer is placed, and which reservations are granted. */
  datatype Machine = Machine(
    l: Layout, os: (nat, nat) -> FilterReply, place: nat -> nat, words: nat -> bool, units: nat -> bool)

  function SaturatingMul(l: Layout, a: nat, b: nat): nat {
    if a * b <= l.MaxUsize() then a * b else l.MaxUsize()
  }

  /** AlignedBuffer::new: how many words hold `byteLen` bytes. */
  function AlignedWords(m: Machine, byteLen: nat): SysResult<nat>
    requires m.l.Valid()
  {
    match m.l.CheckedAdd(byteLen, m.l.word - 1)
    case None => Err(CountOverflow)
    case Some(n) => if m.words(n / m.l.word) then Ok(n / m.l.word) else Err(AllocationFailure)
  }

  /** The buffer is the least whole number of words that holds the request; its size never saturates. */
  lemma CapacityExact(m: Machine, byteLen: nat)
    requires m.l.Valid()
    ensures AlignedWords(m, byteLen).Ok? ==>
              var words := AlignedWords(m, byteLen).value;
              && words * m.l.word <= m.l.MaxUsize()
              && SaturatingMul(m.l, words, m.l.word) == words * m.l.word
              && byteLen <= words * m.l.word < byteLen + m.l.word
  {
    if m.l.word == 4 {
    } else {
      assert m.l.word == 8;
    }
  }

  /** The buffer after the call: what the OS wrote inside the supplied length, zeros elsewhere. */
  function Contents(written: seq<Byte>, supplied: nat, size: nat): (bytes: seq<Byte>)
    ensures |bytes| == size
  {
    seq(size, (i: nat) => if i < |written| && i < supplied then written[i] else 0)
  }

  /** The valid part of a successful reply, as the parser sees it. */
  function ReplyView(m: Machine, k: nat, supplied: nat, valid: nat): View
    requires m.l.Valid()
  {
    ViewOf(m.l, m.place(k), Contents(m.os(k, supplied).written, supplied, valid))
  }

  /** The data calls numbered `k` and up, the last length reported being `needed`. */
  function Attempts(m: Machine, k: nat, needed: U32): SysResult<seq<RawFilter>>
    requires m.l.Valid()
    decreases MAX_LIST_ATTEMPTS + 1 - k
  {
    if k > MAX_LIST_ATTEMPTS then Err(DataChanged)
    else if needed == 0 then Ok([])
    else if AlignedWords(m, needed).Err? then Err(AlignedWords(m, needed).error)
    else
      var reply := m.os(k, needed);
      if reply.code == ERROR_MORE_DATA then Attempts(m, k + 1, reply.needed)
      else if reply.code != ERROR_SUCCESS then Err(Os(reply.code))
      else
        var valid := if reply.needed == 0 then needed else reply.needed;
        if valid > needed then Err(MalformedOutput)
        else Parse(m.l, m.units, ReplyView(m, k, needed, valid))
  }

  function ListOutcome(m: Machine): SysResult<seq<RawFilter>>
    requires m.l.Valid()
  {
    var first := m.os(0, 0);
    if first.code == ERROR_SUCCESS && first.needed == 0 then Ok([])
    else if first.code != ERROR_SUCCESS && first.code != ERROR_MORE_DATA then Err(Os(first.code))
    else Attempts(m, 1, first.needed)
  }

  // ----- What every reply means, whatever the OS answers -----

  /** The length supplied with call `k`: the one the call before it reported. */
  function Supplied(m: Machine, k: nat): U32 {
    if k == 0 then 0 else m.os(k - 1, Supplied(m, k - 1)).needed
  }

  function ReplyAt(m: Machine, k: nat): FilterReply {
    m.os(k, Supplied(m, k))
  }

  /** The reply to call `k` asks for another call: only the probe may do so with success. */
  predicate AsksAgain(m: Machine, k: nat) {
    ReplyAt(m, k).code == ERROR_MORE_DATA || (k == 0 && ReplyAt(m, k).code == ERROR_SUCCESS)
  }

  /** Call `k` is made: every call before it asked for more, and a buffer was granted for every length. */
  ghost predicate Reached(m: Machine, k: nat)
    requires m.l.Valid()
  {
    && k <= 8
    && (forall j | 0 <= j < k :: AsksAgain(m, j))
    && (forall j | 1 <= j <= k :: Supplied(m, j) > 0 && AlignedWords(m, Supplied(m, j)).Ok?)
  }

  lemma {:induction false} ReachedAttempt(m: Machine, k: nat)
    requires m.l.Valid() && Reached(m, k) && k > 0
    ensures ListOutcome(m) == Attempts(m, k, Supplied(m, k))
  {
    hide AlignedWords, ReplyView, Parse;
    assert AsksAgain(m, k - 1);
    if k > 1 {
      assert Supplied(m, k - 1) > 0 && AlignedWords(m, Supplied(m, k - 1)).Ok?;
      ReachedAttempt(m, k - 1);
    } else {
      assert Supplied(m, 1) > 0;
    }
  }

  /** A call that is made and answered with a native failure decides the outcome: that failure. */
  lemma NativeFailureWins(m: Machine, k: nat)
    requires m.l.Valid() && Reached(m, k)
    requires ReplyAt(m, k).code != ERROR_SUCCESS && ReplyAt(m, k).code != ERROR_MORE_DATA
    ensures ListOutcome(m) == Err(Os(ReplyAt(m, k).code))
  {
    hide ReplyView, Parse;
    if k > 0 {
      ReachedAttempt(m, k);
    }
  }

  /**
    A data call that is made and succeeds decides the outcome: it is malformed if it claims more bytes than were
    supplied, and otherwise what the parser makes of the bytes that it wrote, of all of them if it reports none.
   */
  lemma SuccessDecides(m: Machine, k: nat)
    requires m.l.Valid() && Reached(m, k) && k > 0 && ReplyAt(m, k).code == ERROR_SUCCESS
    ensures
      var supplied, reported := Supplied(m, k), ReplyAt(m, k).needed;
      && (reported > supplied ==> ListOutcome(m) == Err(MalformedOutput))
      && (0 < reported <= supplied ==> ListOutcome(m) == Parse(m.l, m.units, ReplyView(m, k, supplied, reported)))
      && (reported == 0 ==> ListOutcome(m) == Parse(m.l, m.units, ReplyView(m, k, supplied, supplied)))
  {
    hide ReplyView, Parse;
    ReachedAttempt(m, k);
  }

  /** A call that asks for another one decides the outcome if nothing is left to ask for, or no buffer is granted. */
  lemma AskingDecides(m: Machine, k: nat)
    requires m.l.Valid() && Reached(m, k) && AsksAgain(m, k)
    ensures
      var needed: nat := ReplyAt(m, k).needed;
      && (k < 8 && needed == 0 ==> ListOutcome(m) == Ok([]))
      && (k < 8 && needed > 0 && needed + m.l.word - 1 > m.l.MaxUsize() ==> ListOutcome(m) == Err(CountOverflow))
      && (k < 8 && needed > 0 && needed + m.l.word - 1 <= m.l.MaxUsize() && !m.words((needed + m.l.word - 1) / m.l.word) ==>
            ListOutcome(m) == Err(AllocationFailure))
      && (k == 8 ==> ListOutcome(m) == Err(DataChanged))
      && (k < 8 && needed > 0 && AlignedWords(m, needed).Ok? ==> Reached(m, k + 1))
  {
    hide ReplyView, Parse;
    if k > 0 {
      ReachedAttempt(m, k);
    }
  }

  /** One of the calls that are made decides, so that the lemmas above say what every OS is answered with. */
  lemma {:induction false} SomeCallDecides(m: Machine, from: nat) returns (k: nat)
    requires m.l.Valid() && Reached(m, from)
    ensures Reached(m, k)
    ensures !AsksAgain(m, k) || k == 8 || ReplyAt(m, k).needed == 0 || AlignedWords(m, ReplyAt(m, k).needed).Err?
    decreases 8 - from
  {
    hide AlignedWords;
    k := from;
    if AsksAgain(m, k) && k < 8 && ReplyAt(m, k).needed > 0 && AlignedWords(m, ReplyAt(m, k).needed).Ok? {
      AskingDecides(m, k);
      k := SomeCallDecides(m, k + 1);
    }
  }

  /**
    The loop. The parse result is that of the valid bytes alone, so the parser's "length exceeds its
    allocation" error is never what decides it. At most nine native calls are made.
   */
  method GetFilters(m: Machine) returns (r: SysResult<seq<RawFilter>>, calls: nat)
    requires m.l.Valid()
    ensures r == ListOutcome(m)
    ensures 1 <= calls <= 9
  {
    var first := m.os(0, 0);
    calls := 1;
    var needed: U32 := first.needed;
    if first.code == ERROR_SUCCESS && needed == 0 {
      return Ok([]), calls;
    }
    if first.code != ERROR_SUCCESS && first.code != ERROR_MORE_DATA {
      return Err(Os(first.code)), calls;
    }
    for attempt := 0 to MAX_LIST_ATTEMPTS
      invariant calls == attempt + 1
      invariant ListOutcome(m) == Attempts(m, attempt + 1, needed)
    {
      if needed == 0 {
        return Ok([]), calls;
      }
      var words := AlignedWords(m, needed);
      if words.Err? {
        return Err(words.error), calls;
      }
      CapacityExact(m, needed);
      var capacity := SaturatingMul(m.l, words.value, m.l.word);
      var supplied := needed;
      var reply := m.os(attempt + 1, supplied);
      var buffer := Buffer(m.place(attempt + 1), Contents(reply.written, supplied, capacity));
      calls := calls + 1;
      if reply.code == ERROR_MORE_DATA {
        needed := reply.needed;
        continue;
      }
      if reply.code != ERROR_SUCCESS {
        return Err(Os(reply.code)), calls;
      }
      var valid := if reply.needed == 0 then supplied else reply.needed;
      if valid > supplied {
        return Err(MalformedOutput), calls;
      }
      assert buffer.bytes[..valid] == Contents(reply.written, supplied, valid);
      r := ParseFilterBuffer(m.l, m.units, buffer, valid);
      return r, calls;
    }
    return Err(DataChanged), calls;
  }

  // ----- An honest OS whose list may change between calls -----

  /** How many bytes the list as of call `k` takes. */
  function SizeAt(m: Machine, lists: nat -> seq<RawFilter>, k: nat): nat {
    EncodedSize(m.l, lists(k))
  }

  /**
    Call `k` sees the list `lists(k)`. It reports the length that list needs; a buffer that is long enough
    gets the encoded list, a shorter one is refused. The size probe may report success or "more data".
   */
  ghost predicate Honest(m: Machine, lists: nat -> seq<RawFilter>)
    requires m.l.Valid()
  {
    && (forall k: nat, supplied: nat ::
          var reply, size := m.os(k, supplied), SizeAt(m, lists, k);
          && reply.needed == size
          && (if k == 0 && size > 0 then reply.code == ERROR_SUCCESS || reply.code == ERROR_MORE_DATA
              else if supplied < size then reply.code == ERROR_MORE_DATA
              else reply.code == ERROR_SUCCESS && reply.written == Encode(m.l, m.place(k), lists(k))))
  }

  /** There is such an OS for every history of lists and every placement of the buffers. */
  lemma HonestOsExists(m: Machine, lists: nat -> seq<RawFilter>) returns (honest: Machine)
    requires m.l.Valid()
    requires forall k: nat :: SizeAt(m, lists, k) < 0x1_0000_0000
    ensures honest.l == m.l && honest.place == m.place && honest.words == m.words && honest.units == m.units
    ensures Honest(honest, lists)
  {
    honest := m.(os := (k: nat, supplied: nat) =>
      if supplied < SizeAt(m, lists, k) then FilterReply(ERROR_MORE_DATA, SizeAt(m, lists, k) % 0x1_0000_0000, [])
      else FilterReply(ERROR_SUCCESS, SizeAt(m, lists, k) % 0x1_0000_0000, Encode(m.l, m.place(k), lists(k))));
    assert forall k: nat :: SizeAt(honest, lists, k) == SizeAt(m, lists, k);
  }

  /** Reservations are granted and buffers lie word-aligned inside the address space. */
  ghost predicate Roomy(m: Machine, lists: nat -> seq<RawFilter>)
    requires m.l.Valid()
  {
    && (forall n: nat :: m.words(n)) && (forall n: nat :: m.units(n))
    && (forall k: nat :: m.place(k) % 2 == 0)
    && (forall k: nat, j: nat :: m.place(k) + SizeAt(m, lists, j) + m.l.word <= m.l.MaxUsize())
  }

  ghost predicate Listable(lists: nat -> seq<RawFilter>) {
    forall k: nat, i: nat :: i < |lists(k)| ==> NulFree(lists(k)[i].target)
  }

  /** The list grew strictly before each of the data calls numbered `from` to `upTo - 1`. */
  ghost predicate Grew(m: Machine, lists: nat -> seq<RawFilter>, from: nat, upTo: nat) {
    forall k: nat | from <= k < upTo && k > 0 :: SizeAt(m, lists, k) > SizeAt(m, lists, k - 1)
  }

  /** Call `k` is the one that ends the loop: every earlier data call found the list grown, this one did not. */
  ghost predicate Settles(m: Machine, lists: nat -> seq<RawFilter>, k: nat) {
    && 1 <= k <= MAX_LIST_ATTEMPTS && Grew(m, lists, 1, k)
    && SizeAt(m, lists, k) <= SizeAt(m, lists, k - 1)
  }

  /** A zeroed record has no known trigger. */
  lemma ZerosAreMalformed(l: Layout, units: nat -> bool, base: nat, size: nat)
    requires l.Valid() && size > 0
    ensures Parse(l, units, ViewOf(l, base, Contents([], size, size))) == Err(MalformedOutput)
  {
    var v := ViewOf(l, base, Contents([], size, size));
    assert Decoder(l, units, v)(0) == RecordOf(l, units, v, 0);
    if l.recordSize <= size {
      assert v.dword(l.trigger) == 0;
    }
  }

  /** The n-th data call, with the reservation granted, on an honest OS. */
  lemma DataCall(m: Machine, lists: nat -> seq<RawFilter>, k: nat)
    requires m.l.Valid() && Honest(m, lists) && Roomy(m, lists)
    requires 1 <= k <= MAX_LIST_ATTEMPTS && 0 < SizeAt(m, lists, k - 1) < 0x1_0000_0000
    ensures AlignedWords(m, SizeAt(m, lists, k - 1)).Ok?
    ensures var needed, size := SizeAt(m, lists, k - 1), SizeAt(m, lists, k);
            var reply := m.os(k, needed);
            && reply.needed == size
            && (needed < size ==> reply.code == ERROR_MORE_DATA)
            && (size <= needed ==>
                  reply.code == ERROR_SUCCESS && reply.written == Encode(m.l, m.place(k), lists(k)))
  {
    assert m.place(0) + SizeAt(m, lists, k - 1) + m.l.word <= m.l.MaxUsize();
    assert m.words((SizeAt(m, lists, k - 1) + m.l.word - 1) / m.l.word);
  }

  lemma WholeReply(m: Machine, k: nat, supplied: nat, filters: seq<RawFilter>)
    requires m.l.Valid() && m.place(k) % 2 == 0 && (forall n: nat :: m.units(n))
    requires EncodedSize(m.l, filters) <= supplied && EncodedSize(m.l, filters) < 0x1_0000_0000
    requires m.place(k) + EncodedSize(m.l, filters) <= m.l.MaxUsize()
    requires forall i | 0 <= i < |filters| :: NulFree(filters[i].target)
    requires m.os(k, supplied).written == Encode(m.l, m.place(k), filters)
    ensures Parse(m.l, m.units, ReplyView(m, k, supplied, EncodedSize(m.l, filters))) == Ok(filters)
  {
    var written := m.os(k, supplied).written;
    ParseEncoded(m.l, m.units, m.place(k), filters);
    assert Contents(written, supplied, EncodedSize(m.l, filters)) == written;
  }

  lemma EmptyReply(m: Machine, k: nat, supplied: nat)
    requires m.l.Valid() && supplied > 0 && m.os(k, supplied).written == []
    ensures Parse(m.l, m.units, ReplyView(m, k, supplied, supplied)) == Err(MalformedOutput)
  {
    assert Contents([], supplied, supplied) == Contents(m.os(k, supplied).written, supplied, supplied);
    ZerosAreMalformed(m.l, m.units, m.place(k), supplied);
  }

  lemma SettledOutcome(m: Machine, lists: nat -> seq<RawFilter>, k: nat)
    requires m.l.Valid() && Honest(m, lists) && Roomy(m, lists) && Listable(lists)
    requires 1 <= k <= MAX_LIST_ATTEMPTS && 0 < SizeAt(m, lists, k - 1) < 0x1_0000_0000
    requires SizeAt(m, lists, k) <= SizeAt(m, lists, k - 1)
    ensures Attempts(m, k, SizeAt(m, lists, k - 1)) ==
            if SizeAt(m, lists, k) > 0 then Ok(lists(k)) else Err(MalformedOutput)
  {
    var needed, size := SizeAt(m, lists, k - 1), SizeAt(m, lists, k);
    DataCall(m, lists, k);
    if size > 0 {
      assert m.place(k) + size + m.l.word <= m.l.MaxUsize();
      WholeReply(m, k, needed, lists(k));
    } else {
      OnlyEmptyTakesNothing(m.l, lists(k));
      EmptyReply(m, k, needed);
    }
  }

  lemma OnlyEmptyTakesNothing(l: Layout, filters: seq<RawFilter>)
    requires l.Valid()
    ensures EncodedSize(l, filters) == 0 <==> filters == []
  {
    if filters != [] {
      assert Sizes(l)(filters[0]) >= l.recordSize;
    }
  }

  lemma {:induction false} RetriesOnGrowth(m: Machine, lists: nat -> seq<RawFilter>, j: nat)
    requires m.l.Valid() && Honest(m, lists) && Roomy(m, lists) && 1 <= j <= MAX_LIST_ATTEMPTS
    requires 0 < SizeAt(m, lists, j - 1) < SizeAt(m, lists, j) < 0x1_0000_0000
    ensures Attempts(m, j, SizeAt(m, lists, j - 1)) == Attempts(m, j + 1, SizeAt(m, lists, j))
  {
    hide Roomy, SizeAt;
    DataCall(m, lists, j);
  }

  lemma {:induction false} RetriesUntilSettled(m: Machine, lists: nat -> seq<RawFilter>, j: nat, k: nat)
    requires m.l.Valid() && Honest(m, lists) && Roomy(m, lists)
    requires 1 <= j <= k <= MAX_LIST_ATTEMPTS + 1 && Grew(m, lists, j, k)
    requires forall i: nat :: SizeAt(m, lists, i) < 0x1_0000_0000
    requires SizeAt(m, lists, j - 1) > 0
    ensures SizeAt(m, lists, k - 1) > 0
    ensures Attempts(m, j, SizeAt(m, lists, j - 1)) == Attempts(m, k, SizeAt(m, lists, k - 1))
    decreases k - j
  {
    hide Honest, Roomy, SizeAt, Attempts;
    if j < k {
      RetriesOnGrowth(m, lists, j);
      RetriesUntilSettled(m, lists, j + 1, k);
    }
  }

  /**
    Against an honest OS. The result is the exact list of the call that settles the loop if and only if
    that list is not empty. A list that was emptied between the probe and the data call is reported as
    malformed: a reported length of zero is taken for "the whole buffer is valid". DataChanged comes
    exactly when the list grew before each of the eight data calls.
   */
  lemma HonestList(m: Machine, lists: nat -> seq<RawFilter>)
    requires m.l.Valid() && Honest(m, lists) && Roomy(m, lists) && Listable(lists)
    requires forall i: nat :: SizeAt(m, lists, i) < 0x1_0000_0000
    ensures SizeAt(m, lists, 0) == 0 ==> ListOutcome(m) == Ok([]) == Ok(lists(0))
    ensures SizeAt(m, lists, 0) > 0 ==> (ListOutcome(m) == Err(DataChanged) <==> Grew(m, lists, 1, 9))
    ensures forall k: nat :: SizeAt(m, lists, 0) > 0 && Settles(m, lists, k) ==>
              ListOutcome(m) == if SizeAt(m, lists, k) > 0 then Ok(lists(k)) else Err(MalformedOutput)
  {
    if SizeAt(m, lists, 0) == 0 {
      OnlyEmptyTakesNothing(m.l, lists(0));
      assert m.os(0, 0).needed == SizeAt(m, lists, 0);
    } else {
      forall k: nat | Settles(m, lists, k)
        ensures ListOutcome(m) == if SizeAt(m, lists, k) > 0 then Ok(lists(k)) else Err(MalformedOutput)
      {
        RetriesUntilSettled(m, lists, 1, k);
        SettledOutcome(m, lists, k);
      }
      if Grew(m, lists, 1, MAX_LIST_ATTEMPTS + 1) {
        RetriesUntilSettled(m, lists, 1, MAX_LIST_ATTEMPTS + 1);
      } else {
        var k := FirstSettled(m, lists, 1);
      }
    }
  }

  lemma {:induction false} FirstSettled(m: Machine, lists: nat -> seq<RawFilter>, j: nat) returns (k: nat)
    requires 1 <= j <= MAX_LIST_ATTEMPTS && Grew(m, lists, 1, j) && !Grew(m, lists, j, MAX_LIST_ATTEMPTS + 1)
    ensures Settles(m, lists, k)
    decreases MAX_LIST_ATTEMPTS - j
  {
    if SizeAt(m, lists, j) <= SizeAt(m, lists, j - 1) {
      k := j;
    } else {
      k := FirstSettled(m, lists, j + 1);
    }
  }

  // ----- RestartSession::filters, end to end -----

  function SessionFilters(m: Machine, absolute: seq<Unit> -> bool): SysResult<seq<Filter>>
    requires m.l.Valid()
  {
    match ListOutcome(m) case Err(e) => Err(e) case Ok(raw) => FiltersFromRaw(absolute, raw)
  }

  /** Every list of valid filters survives the OS, the buffer, the parser and the conversion. */
  lemma {:induction false} FiltersRoundTrip(
      m: Machine, lists: nat -> seq<RawFilter>, absolute: seq<Unit> -> bool, filters: seq<Filter>)
    requires m.l.Valid() && AllValid(absolute, filters)
    requires Honest(m, lists) && Roomy(m, lists) && (forall k: nat :: lists(k) == ToRaw(filters))
    requires EncodedSize(m.l, ToRaw(filters)) < 0x1_0000_0000
    ensures SessionFilters(m, absolute) == Ok(filters)
  {
    forall k: nat, i: nat | i < |lists(k)|
      ensures NulFree(lists(k)[i].target)
    {
      RawIsNulFree(absolute, filters, i);
    }
    assert Settles(m, lists, 1);
    HonestList(m, lists);
    FromRawExact(absolute, ToRaw(filters), filters);
  }
}
