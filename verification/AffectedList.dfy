/**
  The snapshot of affected applications: the retry loop around RmGetList. The OS is an oracle that, for
  the n-th call and the number of supplied entries, gives a code, two counts, the entries and the reasons.
 */
module AffectedList {
  import opened NativeTypes
  import opened Wrappers
  import opened FilterBuffer
  import opened WideText

  const MAX_LIST_ATTEMPTS: nat := 8

  datatype AppInfo = AppInfo(
    applicationType: int, status: U32, restartable: bool, process: UniqueProcess, terminalSession: U32)

  /** RM_PROCESS_INFO: two fixed-width, NUL-terminated names and plain values. */
  datatype NativeApp = NativeApp(appName: seq<Unit>, serviceName: seq<Unit>, info: AppInfo)

  datatype App = App(displayName: seq<Unit>, serviceName: seq<Unit>, info: AppInfo)

  datatype Snapshot = Snapshot(apps: seq<App>, rebootReasons: U32)

  datatype ListReply = ListReply(code: nat, needed: U32, returned: U32, entry: nat -> NativeApp, reasons: U32)

  datatype Machine = Machine(os: (nat, nat) -> ListReply, reserve: nat -> bool)

  function Decode(native: NativeApp): SysResult<App> {
    match DecodeFixed(native.appName)
    case Err(e) => Err(e)
    case Ok(displayName) =>
      match DecodeFixed(native.serviceName)
      case Err(e) => Err(e)
      case Ok(serviceName) => Ok(App(displayName, serviceName, native.info))
  }

  /** The first `count` entries, decoded; the first failure wins. */
  function DecodeFirst(entry: nat -> NativeApp, count: nat): SysResult<seq<App>> {
    if count == 0 then Ok([]) else
    match DecodeFirst(entry, count - 1)
    case Err(e) => Err(e)
    case Ok(apps) => match Decode(entry(count - 1)) case Err(e) => Err(e) case Ok(app) => Ok(apps + [app])
  }

  /** The data calls numbered `k` and up, `needed` being the count reported last; with the number of the last call. */
  function Attempts(m: Machine, k: nat, needed: U32): (SysResult<Snapshot>, nat)
    requires k > 0
    decreases MAX_LIST_ATTEMPTS + 1 - k
  {
    if k > MAX_LIST_ATTEMPTS then (Err(DataChanged), k - 1)
    else if !m.reserve(needed) then (Err(AllocationFailure), k - 1)
    else
      var reply := m.os(k, needed);
      if reply.code == ERROR_MORE_DATA then Attempts(m, k + 1, reply.needed)
      else if reply.code != ERROR_SUCCESS then (Err(Os(reply.code)), k)
      else if reply.returned > needed then (Err(MalformedOutput), k)
      else match DecodeFirst(reply.entry, reply.returned)
        case Err(e) => (Err(e), k)
        case Ok(apps) => (Ok(Snapshot(apps, reply.reasons)), k)
  }

  /** The outcome and the number of the last native call, the size probe being call 0. */
  function Outcome(m: Machine): (SysResult<Snapshot>, nat) {
    var first := m.os(0, 0);
    if first.code == ERROR_SUCCESS then (Ok(Snapshot([], first.reasons)), 0)
    else if first.code != ERROR_MORE_DATA then (Err(Os(first.code)), 0)
    else Attempts(m, 1, first.needed)
  }

  // ----- What every reply means, whatever the OS answers -----

  /** A text, or the one complaint about it: there is no NUL. */
  lemma {:induction false} DecodeFixedFails(value: seq<Unit>)
    ensures DecodeFixed(value).Err? ==> DecodeFixed(value) == Err(MalformedOutput)
  {
    if value != [] && value[0] != 0 {
      DecodeFixedFails(value[1..]);
    }
  }

  lemma {:induction false} DecodeFirstSound(entry: nat -> NativeApp, count: nat)
    ensures
      match DecodeFirst(entry, count)
      case Ok(apps) => |apps| == count && forall i | 0 <= i < count :: Decode(entry(i)) == Ok(apps[i])
      case Err(e) => e == MalformedOutput && exists i: nat :: i < count && Decode(entry(i)).Err?
  {
    if count > 0 {
      DecodeFixedFails(entry(count - 1).appName);
      DecodeFixedFails(entry(count - 1).serviceName);
      DecodeFirstSound(entry, count - 1);
    }
  }

  /** All entries are decoded in place, or one of them is malformed. */
  lemma DecodeFirstExact(entry: nat -> NativeApp, count: nat, apps: seq<App>)
    ensures DecodeFirst(entry, count) == Ok(apps) <==>
            |apps| == count && forall i | 0 <= i < count :: Decode(entry(i)) == Ok(apps[i])
    ensures DecodeFirst(entry, count) == Err(MalformedOutput) <==> exists i: nat :: i < count && Decode(entry(i)).Err?
  {
    hide Decode;
    DecodeFirstSound(entry, count);
    if |apps| == count && forall i | 0 <= i < count :: Decode(entry(i)) == Ok(apps[i]) {
      DecodesFirst(entry, apps, count);
      assert apps[..count] == apps;
    }
  }

  /** How many entries are supplied with call `k`: as many as the call before it reported. */
  function Supplied(m: Machine, k: nat): U32 {
    if k == 0 then 0 else m.os(k - 1, Supplied(m, k - 1)).needed
  }

  function ReplyAt(m: Machine, k: nat): ListReply {
    m.os(k, Supplied(m, k))
  }

  /** Call `k` is made: every call before it asked for more, and every buffer was granted. */
  ghost predicate Reached(m: Machine, k: nat) {
    && k <= 8
    && (forall j | 0 <= j < k :: ReplyAt(m, j).code == ERROR_MORE_DATA)
    && (forall j | 1 <= j <= k :: m.reserve(Supplied(m, j)))
  }

  lemma {:induction false} ReachedAttempt(m: Machine, k: nat)
    requires Reached(m, k) && k > 0
    ensures Outcome(m) == Attempts(m, k, Supplied(m, k))
  {
    assert ReplyAt(m, k - 1).code == ERROR_MORE_DATA;
    if k > 1 {
      ReachedAttempt(m, k - 1);
    }
  }

  /** A call that is made and answered with a native failure decides the outcome: that failure. */
  lemma NativeFailureWins(m: Machine, k: nat)
    requires Reached(m, k) && ReplyAt(m, k).code != ERROR_SUCCESS && ReplyAt(m, k).code != ERROR_MORE_DATA
    ensures Outcome(m) == (Err(Os(ReplyAt(m, k).code)), k)
  {
    if k > 0 {
      ReachedAttempt(m, k);
    }
  }

  /** A call that is made and succeeds decides the outcome. */
  lemma SuccessDecides(m: Machine, k: nat, apps: seq<App>)
    requires Reached(m, k) && ReplyAt(m, k).code == ERROR_SUCCESS
    ensures
      var reply := ReplyAt(m, k);
      && Outcome(m).1 == k
      && (k == 0 ==> Outcome(m).0 == Ok(Snapshot([], reply.reasons)))
      && (k > 0 && reply.returned > Supplied(m, k) ==> Outcome(m).0 == Err(MalformedOutput))
      && (k > 0 && reply.returned <= Supplied(m, k) ==>
            && (Outcome(m).0 == Ok(Snapshot(apps, reply.reasons)) <==>
                  |apps| == reply.returned && forall i | 0 <= i < reply.returned :: Decode(reply.entry(i)) == Ok(apps[i]))
            && (Outcome(m).0 == Err(MalformedOutput) <==>
                  exists i: nat :: i < reply.returned && Decode(reply.entry(i)).Err?))
  {
    var reply := ReplyAt(m, k);
    if k > 0 {
      ReachedAttempt(m, k);
      DecodeFirstExact(reply.entry, reply.returned, apps);
    }
  }

  /** A call that asks for more decides the outcome only if no buffer is granted or it was the last one. */
  lemma MoreDataDecides(m: Machine, k: nat)
    requires Reached(m, k) && ReplyAt(m, k).code == ERROR_MORE_DATA
    ensures k < 8 && !m.reserve(ReplyAt(m, k).needed) ==> Outcome(m) == (Err(AllocationFailure), k)
    ensures k == 8 ==> Outcome(m) == (Err(DataChanged), 8)
    ensures k < 8 && m.reserve(ReplyAt(m, k).needed) ==> Reached(m, k + 1)
  {
    if k > 0 {
      ReachedAttempt(m, k);
    }
  }

  /** One of the calls that are made decides, so that the lemmas above say what every OS is answered with. */
  lemma {:induction false} SomeCallDecides(m: Machine, from: nat) returns (k: nat)
    requires Reached(m, from)
    ensures Reached(m, k)
    ensures ReplyAt(m, k).code != ERROR_MORE_DATA || k == 8 || !m.reserve(ReplyAt(m, k).needed)
    decreases 8 - from
  {
    k := from;
    if ReplyAt(m, k).code == ERROR_MORE_DATA && k < 8 && m.reserve(ReplyAt(m, k).needed) {
      MoreDataDecides(m, k);
      k := SomeCallDecides(m, k + 1);
    }
  }

  method DecodeAll(entries: seq<NativeApp>) returns (r: SysResult<seq<App>>)
    ensures r == DecodeFirst((i: nat) => if i < |entries| then entries[i] else NativeApp([], [], BLANK), |entries|)
  {
    var apps := [];
    ghost var entry := (i: nat) => if i < |entries| then entries[i] else NativeApp([], [], BLANK);
    for i := 0 to |entries|
      invariant DecodeFirst(entry, i) == Ok(apps)
    {
      var app := Decode(entries[i]);
      if app.Err? {
        FailureStays(entry, i + 1, |entries|);
        return Err(app.error);
      }
      apps := apps + [app.value];
    }
    return Ok(apps);
  }

  const BLANK := AppInfo(0, 0, false, UniqueProcess(0, 0), 0)

  lemma {:induction false} FailureStays(entry: nat -> NativeApp, i: nat, n: nat)
    requires i <= n && DecodeFirst(entry, i).Err?
    ensures DecodeFirst(entry, n) == DecodeFirst(entry, i)
    decreases n
  {
    if i < n {
      FailureStays(entry, i, n - 1);
    }
  }

  lemma {:induction false} SameEntries(a: nat -> NativeApp, b: nat -> NativeApp, n: nat)
    requires forall i | 0 <= i < n :: a(i) == b(i)
    ensures DecodeFirst(a, n) == DecodeFirst(b, n)
    decreases n
  {
    if n > 0 {
      SameEntries(a, b, n - 1);
    }
  }

  method AffectedApplications(m: Machine) returns (r: SysResult<Snapshot>, calls: nat)
    ensures (r, calls - 1) == Outcome(m)
    ensures 1 <= calls <= 9
  {
    var first := m.os(0, 0);
    calls := 1;
    var needed: U32, supplied: U32 := first.needed, 0;
    if first.code == ERROR_SUCCESS {
      return Ok(Snapshot([], first.reasons)), calls;
    }
    if first.code != ERROR_MORE_DATA {
      return Err(Os(first.code)), calls;
    }
    for attempt := 0 to MAX_LIST_ATTEMPTS
      invariant calls == attempt + 1
      invariant Outcome(m) == Attempts(m, attempt + 1, needed)
    {
      var capacity: nat := needed;
      if !m.reserve(capacity) {
        return Err(AllocationFailure), calls;
      }
      supplied := needed;
      var reply := m.os(attempt + 1, supplied);
      calls := calls + 1;
      needed := reply.needed;
      supplied := reply.returned;
      if reply.code == ERROR_MORE_DATA {
        continue;
      }
      if reply.code != ERROR_SUCCESS {
        return Err(Os(reply.code)), calls;
      }
      var returned: nat := supplied;
      if returned > capacity {
        return Err(MalformedOutput), calls;
      }
      var buffer := seq(capacity, (i: nat) => reply.entry(i));
      var entries := buffer[..returned];
      var apps := DecodeAll(entries);
      SameEntries((i: nat) => if i < |entries| then entries[i] else NativeApp([], [], BLANK), reply.entry, returned);
      return match apps case Err(e) => Err(e) case Ok(list) => Ok(Snapshot(list, reply.reasons)), calls;
    }
    return Err(DataChanged), calls;
  }

  // ----- An honest OS whose list may change between calls -----

  /** Call `k` sees the list `lists(k)`: it hands it over if enough entries are supplied, and else reports its length. */
  ghost predicate Honest(m: Machine, lists: nat -> Snapshot) {
    && (forall k: nat, supplied: nat ::
          var reply, apps := m.os(k, supplied), lists(k).apps;
          && reply.needed == |apps|
          && (if supplied < |apps| then reply.code == ERROR_MORE_DATA
              else && reply.code == ERROR_SUCCESS && reply.returned == |apps|
                   && reply.reasons == lists(k).rebootReasons
                   && (forall i | 0 <= i < |apps| :: Decode(reply.entry(i)) == Ok(apps[i]))))
    && (forall n: nat :: m.reserve(n))
  }

  ghost predicate Grew(lists: nat -> Snapshot, from: nat, upTo: nat) {
    forall k: nat | from <= k < upTo && k > 0 :: |lists(k).apps| > |lists(k - 1).apps|
  }

  lemma {:induction false} DecodesFirst(entry: nat -> NativeApp, apps: seq<App>, n: nat)
    requires n <= |apps| && forall i | 0 <= i < |apps| :: Decode(entry(i)) == Ok(apps[i])
    ensures DecodeFirst(entry, n) == Ok(apps[..n])
    decreases n
  {
    if n > 0 {
      DecodesFirst(entry, apps, n - 1);
      assert apps[..n] == apps[..n - 1] + [apps[n - 1]];
    }
  }

  lemma HonestSettles(m: Machine, lists: nat -> Snapshot, k: nat, needed: U32)
    requires Honest(m, lists) && 1 <= k <= MAX_LIST_ATTEMPTS && |lists(k).apps| <= needed
    ensures Attempts(m, k, needed) == (Ok(lists(k)), k)
  {
    var reply, apps := m.os(k, needed), lists(k).apps;
    DecodesFirst(reply.entry, apps, |apps|);
    assert apps[..|apps|] == apps;
    assert lists(k) == Snapshot(apps, reply.reasons);
  }

  lemma HonestRetries(m: Machine, lists: nat -> Snapshot, k: nat, needed: U32)
    requires Honest(m, lists) && 1 <= k <= MAX_LIST_ATTEMPTS && needed < |lists(k).apps|
    ensures |lists(k).apps| < 0x1_0000_0000 && Attempts(m, k, needed) == Attempts(m, k + 1, |lists(k).apps|)
  {
    assert m.os(k, needed).needed == |lists(k).apps|;
  }

  /** The result of the data calls numbered `k` and up, the last of which has the number `last`. */
  ghost predicate Exact(lists: nat -> Snapshot, k: nat, r: SysResult<Snapshot>, last: nat)
    requires k > 0
  {
    if Grew(lists, k, 9) then r == Err(DataChanged) && last == 8
    else
      && r == Ok(lists(last)) && k <= last <= 8
      && Grew(lists, k, last) && |lists(last).apps| <= |lists(last - 1).apps|
  }

  lemma ExactAfterGrowth(lists: nat -> Snapshot, k: nat, r: SysResult<Snapshot>, last: nat)
    requires 1 <= k <= 8 && |lists(k - 1).apps| < |lists(k).apps| && Exact(lists, k + 1, r, last)
    ensures Exact(lists, k, r, last)
  {}

  /** The loop stops at the first data call whose list did not grow, and not before. */
  lemma {:induction false} AttemptsHonest(m: Machine, lists: nat -> Snapshot, k: nat)
    requires Honest(m, lists) && 1 <= k <= 9
    requires |lists(k - 1).apps| < 0x1_0000_0000
    ensures var (r, last) := Attempts(m, k, |lists(k - 1).apps|); Exact(lists, k, r, last)
    decreases 9 - k
  {
    if k <= 8 {
      hide Honest, Attempts, Exact;
      if |lists(k - 1).apps| < |lists(k).apps| {
        HonestRetries(m, lists, k, |lists(k - 1).apps|);
        AttemptsHonest(m, lists, k + 1);
        var (r, last) := Attempts(m, k + 1, |lists(k).apps|);
        ExactAfterGrowth(lists, k, r, last);
      } else {
        HonestSettles(m, lists, k, |lists(k - 1).apps|);
        ExactAtOnce(lists, k);
      }
    }
  }

  lemma ExactAtOnce(lists: nat -> Snapshot, k: nat)
    requires 1 <= k <= 8 && |lists(k).apps| <= |lists(k - 1).apps|
    ensures Exact(lists, k, Ok(lists(k)), k)
  {
    assert !Grew(lists, k, 9);
  }

  /**
    Against an honest OS the result is the exact snapshot, list and reasons, as of the last native call,
    unless the list was non-empty at the probe and grew before each of the eight data calls; then, and
    only then, it is DataChanged.
   */
  lemma SnapshotExact(m: Machine, lists: nat -> Snapshot)
    requires Honest(m, lists) && |lists(0).apps| < 0x1_0000_0000
    ensures var (r, last) := Outcome(m);
            && last <= 8
            && (r == Ok(lists(last)) || r == Err(DataChanged))
            && (r == Err(DataChanged) <==> lists(0).apps != [] && Grew(lists, 1, 9))
            && (r.Ok? ==> Grew(lists, 1, last))
  {
    var first := m.os(0, 0);
    assert first.needed == |lists(0).apps|;
    if lists(0).apps == [] {
      assert lists(0) == Snapshot([], first.reasons);
    } else {
      AttemptsHonest(m, lists, 1);
    }
  }

  function EncodeApp(app: App): NativeApp {
    NativeApp(app.displayName + [0], app.serviceName + [0], app.info)
  }

  lemma EncodedDecodes(app: App)
    requires 0 !in app.displayName && 0 !in app.serviceName
    ensures Decode(EncodeApp(app)) == Ok(app)
  {
    DecodeFixedExact(app.displayName + [0], app.displayName);
    DecodeFixedExact(app.serviceName + [0], app.serviceName);
  }

  /** There is such an OS for every history of snapshots. */
  lemma HonestOsExists(lists: nat -> Snapshot) returns (m: Machine)
    requires forall k: nat :: |lists(k).apps| < 0x1_0000_0000
    requires forall k: nat, i: nat | i < |lists(k).apps| ::
               0 !in lists(k).apps[i].displayName && 0 !in lists(k).apps[i].serviceName
    ensures Honest(m, lists)
  {
    m := Machine(
      (k: nat, supplied: nat) =>
        var apps := lists(k).apps;
        ListReply(
          if supplied < |apps| then ERROR_MORE_DATA else ERROR_SUCCESS,
          if |apps| < 0x1_0000_0000 then |apps| else 0,
          if |apps| < 0x1_0000_0000 then |apps| else 0,
          (i: nat) => if i < |apps| then EncodeApp(apps[i]) else EncodeApp(App([], [], BLANK)),
          lists(k).rebootReasons),
      (n: nat) => true);
    forall k: nat, i: nat | i < |lists(k).apps| ensures Decode(EncodeApp(lists(k).apps[i])) == Ok(lists(k).apps[i]) {
      EncodedDecodes(lists(k).apps[i]);
    }
  }
}
