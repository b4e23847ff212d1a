/**
  Offset-linked records in general. `decode(at)` reads the record at offset `at` and yields its item
  and the distance to its successor, zero for the last one.
 */
module LinkedRecords {
  import opened NativeTypes
  import opened Wrappers

  /** `means(at, item, next)`: the record at `at` stands for `item` and is followed at distance `next`. */
  type Meaning<!T> = (nat, T, int) -> bool

  /** The distance from record `i` of a chain to the next one. */
  function Distance(offsets: seq<nat>, i: nat): int
    requires i < |offsets|
  {
    if i + 1 < |offsets| then
      var next: int := offsets[i + 1];
      next - offsets[i]
    else 0
  }

  /** The chain whose records lie at `offsets`: links advance by whole records and end in zero. */
  ghost predicate Chain<T(!new)>(means: Meaning<T>, size: nat, offsets: seq<nat>, items: seq<T>) {
    && |offsets| == |items| > 0
    && (forall i | 0 <= i < |offsets| :: means(offsets[i], items[i], Distance(offsets, i)))
    && (forall i | 0 <= i < |offsets| - 1 :: Distance(offsets, i) >= size)
  }

  function Prepend<T, E>(before: seq<T>, rest: Result<seq<T>, E>): Result<seq<T>, E> {
    match rest case Err(e) => Err(e) case Ok(items) => Ok(before + items)
  }

  function Follow<T, E>(decode: nat -> Result<(T, nat), E>, bad: E, size: nat, limit: nat, at: nat)
    : Result<seq<T>, E>
    requires size > 0
    decreases limit + 1 - at
  {
    if at > limit then Err(bad) else
    match decode(at)
    case Err(e) => Err(e)
    case Ok((item, next)) =>
      if next == 0 then Ok([item])
      else if next < size then Err(bad)
      else Prepend([item], Follow(decode, bad, size, limit, at + next))
  }

  /** `decode` succeeds exactly where `means` holds, and only on records inside the limit. */
  ghost predicate Decodes<T(!new), E>(
    decode: nat -> Result<(T, nat), E>, means: Meaning<T>, size: nat, limit: nat)
  {
    && (forall at: nat, item: T, next: int ::
          means(at, item, next) <==> next >= 0 && decode(at) == Ok((item, next)))
    && (forall at: nat :: decode(at).Ok? ==> at + size <= limit)
  }

  lemma ChainCons<T(!new)>(means: Meaning<T>, size: nat, offsets: seq<nat>, items: seq<T>)
    requires |offsets| == |items| > 1
    ensures Chain(means, size, offsets, items) <==>
            && means(offsets[0], items[0], Distance(offsets, 0))
            && Distance(offsets, 0) >= size
            && Chain(means, size, offsets[1..], items[1..])
  {
    var rest, tail := offsets[1..], items[1..];
    assert forall i | 0 <= i < |rest| :: Distance(rest, i) == Distance(offsets, i + 1);
    if Chain(means, size, rest, tail)
       && means(offsets[0], items[0], Distance(offsets, 0)) && Distance(offsets, 0) >= size {
      forall i | 0 <= i < |offsets|
        ensures means(offsets[i], items[i], Distance(offsets, i))
        ensures i < |offsets| - 1 ==> Distance(offsets, i) >= size
      {
        if i > 0 { assert means(rest[i - 1], tail[i - 1], Distance(rest, i - 1)); }
      }
    }
    if Chain(means, size, offsets, items) {
      forall i | 0 <= i < |rest|
        ensures means(rest[i], tail[i], Distance(rest, i))
        ensures i < |rest| - 1 ==> Distance(rest, i) >= size
      {
        assert means(offsets[i + 1], items[i + 1], Distance(offsets, i + 1));
      }
    }
  }

  /** What is followed to the end is a chain, and `offsets` says where its records lie. */
  lemma {:induction false} ChainOf<T(!new), E>(
    decode: nat -> Result<(T, nat), E>, means: Meaning<T>, bad: E, size: nat, limit: nat, at: nat, items: seq<T>)
    returns (offsets: seq<nat>)
    requires size > 0 && Decodes(decode, means, size, limit)
    requires Follow(decode, bad, size, limit, at) == Ok(items)
    ensures Chain(means, size, offsets, items) && offsets[0] == at
    decreases limit + 1 - at
  {
    var (item, next) := decode(at).value;
    assert means(at, item, next);
    offsets := [at];
    if next != 0 {
      var rest := ChainOf(decode, means, bad, size, limit, at + next, items[1..]);
      offsets := [at] + rest;
      assert offsets[1..] == rest;
      ChainCons(means, size, offsets, items);
    }
  }

  /** Every chain is followed to its end, and yields exactly its items. */
  lemma {:induction false} ChainFollowed<T(!new), E>(
    decode: nat -> Result<(T, nat), E>, means: Meaning<T>, bad: E, size: nat, limit: nat,
    offsets: seq<nat>, items: seq<T>)
    requires size > 0 && Decodes(decode, means, size, limit)
    requires Chain(means, size, offsets, items)
    ensures Follow(decode, bad, size, limit, offsets[0]) == Ok(items)
    decreases |offsets|
  {
    assert means(offsets[0], items[0], Distance(offsets, 0));
    if |offsets| == 1 {
      assert items == [items[0]];
    } else {
      ChainCons(means, size, offsets, items);
      ChainFollowed(decode, means, bad, size, limit, offsets[1..], items[1..]);
      assert items == [items[0]] + items[1..];
    }
  }

  /** Records do not overlap, so there are at most `limit / size` of them. */
  lemma {:induction false} CountBounded<T, E>(
    decode: nat -> Result<(T, nat), E>, bad: E, size: nat, limit: nat, at: nat)
    requires size > 0
    requires forall at: nat :: decode(at).Ok? ==> at + size <= limit
    ensures var r := Follow(decode, bad, size, limit, at);
            r.Ok? ==> at + |r.value| * size <= limit
    decreases limit + 1 - at
  {
    var r := Follow(decode, bad, size, limit, at);
    if r.Ok? {
      var next := decode(at).value.1;
      if next != 0 {
        CountBounded(decode, bad, size, limit, at + next);
        var rest := Follow(decode, bad, size, limit, at + next);
        MulSucc(|rest.value|, size);
      }
    }
  }

  /** The record at the `i`-th offset is read, and links to the next offset. */
  predicate LinksOn<T, E>(decode: nat -> Result<(T, nat), E>, size: nat, offsets: seq<nat>, i: nat)
    requires i + 1 < |offsets|
  {
    match decode(offsets[i])
    case Ok((_, next)) => next >= size && offsets[i] + next == offsets[i + 1]
    case Err(_) => false
  }

  /**
    The record that fails first decides: with its own failure, or with `bad` if it lies outside or its link does
    not leave it.
   */
  lemma {:induction false} FirstFailureWins<T, E>(
      decode: nat -> Result<(T, nat), E>, bad: E, size: nat, limit: nat, offsets: seq<nat>, error: E)
    requires size > 0 && offsets != [] && (forall i | 0 <= i < |offsets| - 1 :: offsets[i] <= limit)
    requires forall i: nat | i + 1 < |offsets| :: LinksOn(decode, size, offsets, i)
    requires
      var last := decode(offsets[|offsets| - 1]);
      if offsets[|offsets| - 1] > limit then error == bad
      else last == Err(error) || (last.Ok? && 0 < last.value.1 < size && error == bad)
    ensures Follow(decode, bad, size, limit, offsets[0]) == Err(error)
    decreases |offsets|
  {
    if |offsets| > 1 {
      assert LinksOn(decode, size, offsets, 0);
      forall i: nat | i + 1 < |offsets[1..]| ensures LinksOn(decode, size, offsets[1..], i) {
        assert LinksOn(decode, size, offsets, i + 1);
      }
      FirstFailureWins(decode, bad, size, limit, offsets[1..], error);
    }
  }

  lemma MulSucc(n: nat, size: nat)
    ensures (n + 1) * size == n * size + size
  {}

  lemma PrependNone<T, E>(rest: Result<seq<T>, E>)
    ensures Prepend([], rest) == rest
  {
    if rest.Ok? { assert [] + rest.value == rest.value; }
  }

  lemma PrependAssociates<T, E>(before: seq<T>, item: T, rest: Result<seq<T>, E>)
    ensures Prepend(before, Prepend([item], rest)) == Prepend(before + [item], rest)
  {
    if rest.Ok? { assert before + ([item] + rest.value) == before + [item] + rest.value; }
  }

  /** Following on from a record that links onwards, with `before` already collected. */
  lemma FollowStep<T, E>(
    decode: nat -> Result<(T, nat), E>, bad: E, size: nat, limit: nat, at: nat,
    before: seq<T>, item: T, next: nat)
    requires size > 0 && at <= limit
    requires decode(at) == Ok((item, next)) && next >= size
    ensures Prepend(before, Follow(decode, bad, size, limit, at)) ==
            Prepend(before + [item], Follow(decode, bad, size, limit, at + next))
  {
    PrependAssociates(before, item, Follow(decode, bad, size, limit, at + next));
  }

  // ----- Writing linked records -----

  /** The bytes of an item at an offset, given the distance to the next one. */
  type Writer<!T> = (nat, T, nat) -> seq<Byte>

  /** A writer whose chunk lengths depend on the item alone. */
  ghost predicate Sized<T(!new)>(chunk: Writer<T>, size: T -> nat) {
    forall at: nat, item: T, next: nat :: |chunk(at, item, next)| == size(item)
  }

  function TotalSize<T>(size: T -> nat, items: seq<T>): nat {
    if items == [] then 0 else size(items[0]) + TotalSize(size, items[1..])
  }

  /** The chunks of `items` from offset `at` on, each linked to the next, the last to nothing. */
  function Linked<T>(chunk: Writer<T>, size: T -> nat, at: nat, items: seq<T>): seq<Byte>
    decreases |items|
  {
    if items == [] then [] else
    chunk(at, items[0], if |items| == 1 then 0 else size(items[0]))
    + Linked(chunk, size, at + size(items[0]), items[1..])
  }

  /** `part` lies at offset `at` of `whole`. */
  ghost predicate Within(whole: seq<Byte>, at: nat, part: seq<Byte>) {
    at + |part| <= |whole| && whole[at..at + |part|] == part
  }

  lemma {:induction false} LinkedSize<T(!new)>(chunk: Writer<T>, size: T -> nat, at: nat, items: seq<T>)
    requires Sized(chunk, size)
    ensures |Linked(chunk, size, at, items)| == TotalSize(size, items)
    decreases |items|
  {
    if items != [] {
      LinkedSize(chunk, size, at + size(items[0]), items[1..]);
    }
  }

  lemma SplitSuffix(whole: seq<Byte>, at: nat, left: seq<Byte>, right: seq<Byte>)
    requires at <= |whole| && whole[at..] == left + right
    ensures Within(whole, at, left) && at + |left| <= |whole| && whole[at + |left|..] == right
  {
    assert whole[at..at + |left|] == whole[at..][..|left|];
    assert whole[at + |left|..] == whole[at..][|left|..];
  }

  /** Every chunk of a sound item that lies at an even offset of `whole` is decoded to that item. */
  ghost predicate ReadsBack<T(!new), E>(
    decode: nat -> Result<(T, nat), E>, size: nat, whole: seq<Byte>,
    chunk: Writer<T>, chunkSize: T -> nat, sound: T -> bool)
  {
    && Sized(chunk, chunkSize)
    && (forall item: T :: sound(item) ==> chunkSize(item) >= size && chunkSize(item) % 2 == 0)
    && (forall at: nat, item: T, next: nat ::
          at % 2 == 0 && sound(item) && next <= |whole| && Within(whole, at, chunk(at, item, next)) ==>
          decode(at) == Ok((item, next)))
  }

  /** The first of the written items, and what follows it. */
  lemma FirstReadsBack<T(!new), E>(
    decode: nat -> Result<(T, nat), E>, size: nat, whole: seq<Byte>,
    chunk: Writer<T>, chunkSize: T -> nat, sound: T -> bool, at: nat, items: seq<T>)
    requires size > 0 && ReadsBack(decode, size, whole, chunk, chunkSize, sound)
    requires items != [] && at <= |whole| && at % 2 == 0 && sound(items[0])
    requires whole[at..] == Linked(chunk, chunkSize, at, items)
    ensures
      var n := chunkSize(items[0]);
      && decode(at) == Ok((items[0], if |items| == 1 then 0 else n))
      && n >= size && n % 2 == 0 && at + n <= |whole|
      && whole[at + n..] == Linked(chunk, chunkSize, at + n, items[1..])
  {
    var item, n := items[0], chunkSize(items[0]);
    var next := if |items| == 1 then 0 else n;
    SplitSuffix(whole, at, chunk(at, item, next), Linked(chunk, chunkSize, at + n, items[1..]));
  }

  /** Following the links of a written list reads back the list. */
  lemma {:induction false} LinkedReadsBack<T(!new), E>(
    decode: nat -> Result<(T, nat), E>, bad: E, size: nat, whole: seq<Byte>,
    chunk: Writer<T>, chunkSize: T -> nat, sound: T -> bool, at: nat, items: seq<T>)
    requires size > 0 && ReadsBack(decode, size, whole, chunk, chunkSize, sound)
    requires items != [] && at <= |whole| && at % 2 == 0
    requires forall i | 0 <= i < |items| :: sound(items[i])
    requires whole[at..] == Linked(chunk, chunkSize, at, items)
    ensures Follow(decode, bad, size, |whole|, at) == Ok(items)
    decreases |items|
  {
    hide ReadsBack, Linked;
    FirstReadsBack(decode, size, whole, chunk, chunkSize, sound, at, items);
    if |items| == 1 {
      assert items == [items[0]];
    } else {
      var n := chunkSize(items[0]);
      LinkedReadsBack(decode, bad, size, whole, chunk, chunkSize, sound, at + n, items[1..]);
      FollowStep(decode, bad, size, |whole|, at, [], items[0], n);
      PrependNone(Follow(decode, bad, size, |whole|, at));
      assert items == [items[0]] + items[1..];
    }
  }
}
