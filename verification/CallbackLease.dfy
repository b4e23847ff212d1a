/**
  The process-wide callback slot: one mutex, one optional pointer to a value on the stack of the thread that
  runs a native operation, and a trampoline that Windows calls from any thread at any time.

  Operations and trampolines are numbered threads of control, without a bound on either. A step is one
  atomic action of one of them. An operation may be started from inside a closure; the trampoline that runs
  the closure is then its host and cannot go on before the operation is over.
 */
module CallbackLease {
  import opened NativeTypes
  import opened Progress
  import opened Workload
  import opened Wrappers

  datatype Stage =
    | Entering    // the CallbackState exists, install is about to try the lock
    | Installing  // holds the lock, the slot is not yet read
    | InNative    // the lease is installed and the native call runs
    | Returned    // the lease is being dropped, before the lock
    | Clearing    // the same, holding the lock
    | Inspecting  // the lease is gone, the panic field is about to be read

  /**
    A CallbackState on the stack of its operation: whether it ever was installed, the samples its closure was
    called with, and how the calls ended, true for a panic.
   */
  datatype Op = Op(
    stage: Stage, host: Option<nat>, leased: bool, panicked: bool, samples: seq<U32>, calls: seq<bool>)

  /** One call from Windows with a sample. It is about the operation `madeFor`, which the program is not told. */
  datatype Trampoline =
    | Waiting(madeFor: nat, sample: U32)            // wants the lock
    | Locked(madeFor: nat, sample: U32)             // holds the lock, the slot is not yet read
    | Calling(madeFor: nat, sample: U32, op: nat)   // holds the lock, the closure of this operation runs

  datatype Holder = ByOp(op: nat) | ByTrampoline(thread: nat)

  /** How run_with_callback was left, with its state as it was then: CallbackInUse, or after the native call. */
  datatype Conclusion = Refused(op: Op) | Ended(op: Op)

  datatype State = State(
    ops: map<nat, Op>, trampolines: map<nat, Trampoline>, slot: Option<nat>, lock: Option<Holder>,
    results: map<nat, Conclusion>)

  datatype Step =
    | Start(op: nat, host: Option<nat>)
    | TryLock(op: nat)
    | Install(op: nat)
    | NativeReturns(op: nat)
    | LockToClear(op: nat)
    | Clear(op: nat)
    | Inspect(op: nat)
    | Called(thread: nat, op: nat, sample: U32)
    | Lock(thread: nat)
    | Dereference(thread: nat)
    | ClosureReturns(thread: nat, panics: bool)

  const INITIAL := State(map[], map[], None, None, map[])

  predicate OpAt(s: State, i: nat, stage: Stage) {
    i in s.ops && s.ops[i].stage == stage
  }

  predicate IsCalling(s: State, j: nat) {
    j in s.trampolines && s.trampolines[j].Calling?
  }

  predicate Hosts(s: State, j: nat, i: nat) {
    i in s.ops && s.ops[i].host == Some(j)
  }

  /** What the program and Windows can do. A late or spurious call, for any operation, is always possible. */
  ghost predicate Enabled(s: State, step: Step) {
    match step
    case Start(i, host) => i !in s.ops && i !in s.results && (host.Some? ==> IsCalling(s, host.value))
    case TryLock(i) => OpAt(s, i, Entering)
    case Install(i) => OpAt(s, i, Installing)
    case NativeReturns(i) => OpAt(s, i, InNative)
    case LockToClear(i) => OpAt(s, i, Returned) && s.lock == None
    case Clear(i) => OpAt(s, i, Clearing)
    case Inspect(i) => OpAt(s, i, Inspecting)
    case Called(j, _, _) => j !in s.trampolines
    case Lock(j) => j in s.trampolines && s.trampolines[j].Waiting? && s.lock == None
    case Dereference(j) => j in s.trampolines && s.trampolines[j].Locked?
    case ClosureReturns(j, _) => IsCalling(s, j) && forall i :: !Hosts(s, j, i)
  }

  function Staged(s: State, i: nat, stage: Stage): State
    requires i in s.ops
  {
    s.(ops := s.ops[i := s.ops[i].(stage := stage)])
  }

  function Concluded(s: State, i: nat, conclusion: Conclusion): State {
    s.(ops := s.ops - {i}, results := s.results[i := conclusion])
  }

  function Left(s: State, j: nat): State {
    s.(trampolines := s.trampolines - {j}, lock := None)
  }

  function LockedOf(call: Trampoline): Trampoline {
    Locked(call.madeFor, call.sample)
  }

  function WithSample(op: Op, sample: U32): Op {
    op.(samples := op.samples + [sample])
  }

  function CallingOf(call: Trampoline, i: nat): Trampoline {
    Calling(call.madeFor, call.sample, i)
  }

  function Next(s: State, step: Step): State
    requires Enabled(s, step)
  {
    match step
    case Start(i, host) => s.(ops := s.ops[i := Op(Entering, host, false, false, [], [])])
    case TryLock(i) =>
      if s.lock == None then Staged(s, i, Installing).(lock := Some(ByOp(i))) else Concluded(s, i, Refused(s.ops[i]))
    case Install(i) =>
      if s.slot.Some? then Concluded(s, i, Refused(s.ops[i])).(lock := None)
      else s.(ops := s.ops[i := s.ops[i].(stage := InNative, leased := true)], slot := Some(i), lock := None)
    case NativeReturns(i) => Staged(s, i, Returned)
    case LockToClear(i) => Staged(s, i, Clearing).(lock := Some(ByOp(i)))
    case Clear(i) => Staged(s, i, Inspecting).(slot := None, lock := None)
    case Inspect(i) => Concluded(s, i, Ended(s.ops[i]))
    case Called(j, i, sample) => s.(trampolines := s.trampolines[j := Waiting(i, sample)])
    case Lock(j) => s.(trampolines := s.trampolines[j := LockedOf(s.trampolines[j])], lock := Some(ByTrampoline(j)))
    case Dereference(j) =>
      if s.slot.Some? && Dangling(s, s.slot.value) then s // undefined behaviour in the program
      else if s.slot.Some? && !s.ops[s.slot.value].panicked then
        s.(trampolines := s.trampolines[j := CallingOf(s.trampolines[j], s.slot.value)],
           ops := s.ops[s.slot.value := WithSample(s.ops[s.slot.value], s.trampolines[j].sample)])
      else Left(s, j)
    case ClosureReturns(j, panics) =>
      var i := s.trampolines[j].op;
      if Dangling(s, i) then s // the same
      else
        var op := s.ops[i];
        Left(s, j).(ops := s.ops[i := op.(panicked := op.panicked || panics, calls := op.calls + [panics])])
  }

  /** The pointer to the operation's state is dangling. */
  predicate Dangling(s: State, i: nat) {
    i !in s.ops
  }

  ghost predicate Run(steps: seq<Step>)
    decreases |steps|, 0
  {
    steps == [] ||
    (Run(steps[..|steps| - 1]) && Enabled(After(steps[..|steps| - 1]), steps[|steps| - 1]))
  }

  ghost function After(steps: seq<Step>): State
    requires Run(steps)
    decreases |steps|, 1
  {
    if steps == [] then INITIAL else Next(After(steps[..|steps| - 1]), steps[|steps| - 1])
  }

  // ----- The invariant -----

  predicate Leased(stage: Stage) {
    stage.InNative? || stage.Returned? || stage.Clearing?
  }

  /** The slot is filled exactly while one lease is live, and then points to that lease's state. */
  ghost predicate SlotAgrees(s: State) {
    forall i: nat :: (i in s.ops && Leased(s.ops[i].stage)) <==> s.slot == Some(i)
  }

  ghost predicate LockAgrees(s: State) {
    && (forall i: nat :: (OpAt(s, i, Installing) || OpAt(s, i, Clearing)) <==> s.lock == Some(ByOp(i)))
    && (forall j: nat :: (j in s.trampolines && !s.trampolines[j].Waiting?) <==> s.lock == Some(ByTrampoline(j)))
  }

  /** A closure that runs belongs to the live lease, and did not panic before. */
  ghost predicate CallsAgree(s: State) {
    forall j | IsCalling(s, j) ::
      var i := s.trampolines[j].op;
      s.slot == Some(i) && i in s.ops && !s.ops[i].panicked
  }

  /** An operation started from inside a closure never gets past trying the lock. */
  ghost predicate HostsAgree(s: State) {
    forall i, j | Hosts(s, j, i) :: IsCalling(s, j) && OpAt(s, i, Entering)
  }

  /** The panic field holds a payload exactly if the last call panicked, and no call followed a panic. */
  predicate Captured(panicked: bool, calls: seq<bool>) {
    && (panicked <==> |calls| > 0 && calls[|calls| - 1])
    && forall k | 0 <= k < |calls| - 1 :: !calls[k]
  }

  predicate OpAgrees(op: Op) {
    Captured(op.panicked, op.calls) && (op.leased <==> !op.stage.Entering? && !op.stage.Installing?)
  }

  /** A refused operation never held a lease, so that its closure was never called. */
  predicate ConclusionAgrees(c: Conclusion) {
    match c
    case Refused(op) => !op.leased && op.calls == [] && !op.panicked
    case Ended(op) => op.leased && Captured(op.panicked, op.calls)
  }

  ghost predicate PanicsAgree(s: State) {
    && (forall i | i in s.ops :: OpAgrees(s.ops[i]) && (!s.ops[i].leased ==> s.ops[i].calls == []))
    && (forall i | i in s.results :: ConclusionAgrees(s.results[i]))
  }

  ghost predicate Inv(s: State) {
    SlotAgrees(s) && LockAgrees(s) && CallsAgree(s) && HostsAgree(s) && PanicsAgree(s)
  }

  lemma StepKeepsSlot(s: State, step: Step)
    requires SlotAgrees(s) && CallsAgree(s) && Enabled(s, step)
    ensures SlotAgrees(Next(s, step))
  {}

  lemma StepKeepsLock(s: State, step: Step)
    requires SlotAgrees(s) && LockAgrees(s) && CallsAgree(s) && Enabled(s, step)
    ensures LockAgrees(Next(s, step))
  {}

  lemma StepKeepsCalls(s: State, step: Step)
    requires SlotAgrees(s) && LockAgrees(s) && CallsAgree(s) && Enabled(s, step)
    ensures CallsAgree(Next(s, step))
  {}

  lemma StepKeepsHosts(s: State, step: Step)
    requires LockAgrees(s) && HostsAgree(s) && Enabled(s, step)
    ensures HostsAgree(Next(s, step))
  {
    var t := Next(s, step);
    forall i, j | Hosts(t, j, i) ensures IsCalling(t, j) && OpAt(t, i, Entering) {
      if Hosts(s, j, i) {
        HostHoldsLock(s, j, i);
      }
    }
  }

  lemma HostHoldsLock(s: State, j: nat, i: nat)
    requires LockAgrees(s) && HostsAgree(s) && Hosts(s, j, i)
    ensures s.lock == Some(ByTrampoline(j)) && OpAt(s, i, Entering)
  {}

  lemma StepKeepsPanics(s: State, step: Step)
    requires SlotAgrees(s) && CallsAgree(s) && PanicsAgree(s) && Enabled(s, step)
    ensures PanicsAgree(Next(s, step))
  {}

  /** The invariant holds over every interleaving of operations and Windows' calls. */
  lemma {:induction false} RunKeeps(steps: seq<Step>)
    requires Run(steps)
    ensures Inv(After(steps))
  {
    if steps != [] {
      var s, step := After(steps[..|steps| - 1]), steps[|steps| - 1];
      RunKeeps(steps[..|steps| - 1]);
      StepKeeps(s, step);
    }
  }

  lemma StepKeeps(s: State, step: Step)
    requires Inv(s) && Enabled(s, step)
    ensures Inv(Next(s, step))
  {
    hide Next, SlotAgrees, LockAgrees, CallsAgree, HostsAgree, PanicsAgree;
    StepKeepsSlot(s, step);
    StepKeepsLock(s, step);
    StepKeepsCalls(s, step);
    StepKeepsHosts(s, step);
    StepKeepsPanics(s, step);
  }

  // ----- What it says about whole runs -----

  /** At most one lease is live, at most one closure runs, and whoever is called is the live lease. */
  lemma Exclusive(steps: seq<Step>, i: nat, k: nat)
    requires Run(steps)
    ensures
      var s := After(steps);
      && (i in s.ops && k in s.ops && Leased(s.ops[i].stage) && Leased(s.ops[k].stage) ==> i == k)
      && (IsCalling(s, i) && IsCalling(s, k) ==> i == k)
      && (IsCalling(s, k) ==> s.slot == Some(s.trampolines[k].op))
      && (s.slot == Some(i) <==> i in s.ops && Leased(s.ops[i].stage))
  {
    RunKeeps(steps);
    InvIsExclusive(After(steps), i, k);
  }

  lemma InvIsExclusive(s: State, i: nat, k: nat)
    requires Inv(s)
    ensures i in s.ops && k in s.ops && Leased(s.ops[i].stage) && Leased(s.ops[k].stage) ==> i == k
    ensures IsCalling(s, i) && IsCalling(s, k) ==> i == k
    ensures IsCalling(s, k) ==> s.slot == Some(s.trampolines[k].op)
    ensures s.slot == Some(i) <==> i in s.ops && Leased(s.ops[i].stage)
  {}

  /** The erased pointer is never followed to a state that is gone. */
  lemma NeverDangling(steps: seq<Step>, j: nat)
    requires Run(steps) && j in After(steps).trampolines
    ensures
      var s := After(steps);
      && (s.trampolines[j].Locked? && s.slot.Some? ==> !Dangling(s, s.slot.value))
      && (s.trampolines[j].Calling? ==> !Dangling(s, s.trampolines[j].op))
  {
    RunKeeps(steps);
    InvIsSafe(After(steps), j);
  }

  lemma InvIsSafe(s: State, j: nat)
    requires Inv(s) && j in s.trampolines
    ensures s.trampolines[j].Locked? && s.slot.Some? ==> !Dangling(s, s.slot.value)
    ensures s.trampolines[j].Calling? ==> !Dangling(s, s.trampolines[j].op)
  {}

  /** When the panic field is read, the slot does not point to it and its closure does not run. */
  lemma InspectedAlone(steps: seq<Step>, i: nat, j: nat)
    requires Run(steps) && OpAt(After(steps), i, Inspecting)
    ensures After(steps).slot != Some(i)
    ensures IsCalling(After(steps), j) ==> After(steps).trampolines[j].op != i
  {
    RunKeeps(steps);
    InvInspected(After(steps), i, j);
  }

  lemma InvInspected(s: State, i: nat, j: nat)
    requires Inv(s) && OpAt(s, i, Inspecting)
    ensures s.slot != Some(i) && (IsCalling(s, j) ==> s.trampolines[j].op != i)
  {}

  /** An operation started from inside a closure is refused at once and changes nothing else. */
  lemma ReentryIsRefused(steps: seq<Step>, j: nat, i: nat)
    requires Run(steps) && Hosts(After(steps), j, i)
    ensures Enabled(After(steps), TryLock(i))
    ensures Next(After(steps), TryLock(i)) == Concluded(After(steps), i, Refused(After(steps).ops[i]))
  {
    RunKeeps(steps);
    HostHoldsLock(After(steps), j, i);
  }

  /** A finished operation resumes a panic exactly if one of its calls panicked, which was then the last. */
  lemma PanicsResume(steps: seq<Step>, i: nat)
    requires Run(steps) && i in After(steps).results && After(steps).results[i].Ended?
    ensures var op := After(steps).results[i].op;
            && (op.panicked <==> true in op.calls)
            && forall k | 0 <= k < |op.calls| - 1 :: !op.calls[k]
  {
    RunKeeps(steps);
    var op := After(steps).results[i].op;
    CapturedMeans(op.panicked, op.calls);
  }

  /** A refused operation never held a lease and its closure was never called. */
  lemma RefusedWasNeverLeased(steps: seq<Step>, i: nat)
    requires Run(steps) && i in After(steps).results && After(steps).results[i].Refused?
    ensures !After(steps).results[i].op.leased && After(steps).results[i].op.calls == []
  {
    RunKeeps(steps);
  }

  // ----- Every sample of a live lease is passed on -----

  /** The samples that callbacks brought while the slot pointed to this operation, in order. */
  ghost function Reported(steps: seq<Step>, i: nat): seq<U32>
    requires Run(steps)
  {
    if steps == [] then []
    else
      var s, step := After(steps[..|steps| - 1]), steps[|steps| - 1];
      Reported(steps[..|steps| - 1], i)
      + if step.Dereference? && s.slot == Some(i) then [s.trampolines[step.thread].sample] else []
  }

  /** A call of this operation's closure has panicked. */
  ghost predicate PanicSeen(steps: seq<Step>, i: nat)
    requires Run(steps)
  {
    steps != [] &&
    var s, step := After(steps[..|steps| - 1]), steps[|steps| - 1];
    || PanicSeen(steps[..|steps| - 1], i)
    || (step.ClosureReturns? && step.panics && s.trampolines[step.thread].op == i)
  }

  /** The reported samples up to and including the first whose call panicked. */
  ghost function Offered(steps: seq<Step>, i: nat): seq<U32>
    requires Run(steps)
  {
    if steps == [] then []
    else
      var s, step := After(steps[..|steps| - 1]), steps[|steps| - 1];
      Offered(steps[..|steps| - 1], i)
      + if step.Dereference? && s.slot == Some(i) && !PanicSeen(steps[..|steps| - 1], i)
        then [s.trampolines[step.thread].sample] else []
  }

  /** The operation's closure is running. */
  predicate InCall(s: State, i: nat) {
    match s.lock
    case Some(ByTrampoline(j)) => IsCalling(s, j) && s.trampolines[j].op == i
    case _ => false
  }

  /** The calls of operation `i`, against what was offered to it. */
  predicate Tally(s: State, i: nat, offered: seq<U32>, panicked: bool) {
    if i in s.ops then
      && i !in s.results
      && s.ops[i].samples == offered && (s.ops[i].panicked <==> panicked)
      && |s.ops[i].calls| + (if InCall(s, i) then 1 else 0) == |offered|
    else if i in s.results then
      var op := s.results[i].op;
      op.samples == offered && |op.calls| == |offered| && (op.panicked <==> panicked)
    else offered == [] && !panicked
  }

  lemma StepKeepsTally(s: State, step: Step, i: nat, offered: seq<U32>, panicked: bool)
    requires SlotAgrees(s) && LockAgrees(s) && CallsAgree(s) && Enabled(s, step) && Tally(s, i, offered, panicked)
    ensures
      Tally(Next(s, step), i,
        offered + (if step.Dereference? && s.slot == Some(i) && !panicked then [s.trampolines[step.thread].sample] else []),
        panicked || (step.ClosureReturns? && step.panics && s.trampolines[step.thread].op == i))
  {
    match step {
      case Dereference(j) => DereferenceKeepsTally(s, j, i, offered, panicked);
      case ClosureReturns(j, panics) => ReturnKeepsTally(s, j, panics, i, offered, panicked);
      case _ => OtherStepKeepsTally(s, step, i, offered, panicked);
    }
  }

  lemma DereferenceKeepsTally(s: State, j: nat, i: nat, offered: seq<U32>, panicked: bool)
    requires SlotAgrees(s) && LockAgrees(s) && Enabled(s, Dereference(j)) && Tally(s, i, offered, panicked)
    ensures
      Tally(Next(s, Dereference(j)), i,
        offered + (if s.slot == Some(i) && !panicked then [s.trampolines[j].sample] else []), panicked)
  {
    assert s.lock == Some(ByTrampoline(j));
  }

  lemma ReturnKeepsTally(s: State, j: nat, panics: bool, i: nat, offered: seq<U32>, panicked: bool)
    requires LockAgrees(s) && CallsAgree(s) && Enabled(s, ClosureReturns(j, panics)) && Tally(s, i, offered, panicked)
    ensures Tally(Next(s, ClosureReturns(j, panics)), i, offered, panicked || (panics && s.trampolines[j].op == i))
  {
    assert s.lock == Some(ByTrampoline(j));
  }

  lemma OtherStepKeepsTally(s: State, step: Step, i: nat, offered: seq<U32>, panicked: bool)
    requires SlotAgrees(s) && LockAgrees(s) && CallsAgree(s) && Enabled(s, step) && Tally(s, i, offered, panicked)
    requires !step.Dereference? && !step.ClosureReturns?
    ensures Tally(Next(s, step), i, offered, panicked)
  {
    hide InCall, LockAgrees, CallsAgree, SlotAgrees;
    OtherStepKeepsCall(s, step, i);
    if step.Start? || step.TryLock? || step.Install? || step.Inspect? {
      LeavingIsIdle(s, step);
    }
  }

  lemma OtherStepKeepsCall(s: State, step: Step, i: nat)
    requires LockAgrees(s) && Enabled(s, step) && !step.Dereference? && !step.ClosureReturns?
    ensures InCall(Next(s, step), i) == InCall(s, i)
  {
    match s.lock {
      case Some(ByOp(k)) => assert OpAt(s, k, Installing) || OpAt(s, k, Clearing);
      case _ =>
    }
  }

  /** An operation whose closure runs is neither about to start nor about to end. */
  lemma LeavingIsIdle(s: State, step: Step)
    requires LockAgrees(s) && CallsAgree(s) && SlotAgrees(s) && Enabled(s, step)
    requires step.Start? || step.TryLock? || step.Install? || step.Inspect?
    ensures !InCall(s, step.op)
  {
  }

  /** Every operation's closure was called for exactly the samples that were offered to it. */
  lemma {:induction false} CallsAreOffered(steps: seq<Step>, i: nat)
    requires Run(steps)
    ensures Tally(After(steps), i, Offered(steps, i), PanicSeen(steps, i))
    ensures Offered(steps, i) <= Reported(steps, i)
    ensures !PanicSeen(steps, i) ==> Offered(steps, i) == Reported(steps, i)
  {
    if steps != [] {
      var init, step := steps[..|steps| - 1], steps[|steps| - 1];
      CallsAreOffered(init, i);
      RunKeeps(init);
      hide Tally, Next, Enabled;
      StepKeepsTally(After(init), step, i, Offered(init, i), PanicSeen(init, i));
    }
  }

  /**
    While a lease is live every sample is passed to its closure, up to and including the first one that panics:
    that is how often a finished operation's closure was called, and whether its panic is resumed.
   */
  lemma EverySampleIsPassedOn(steps: seq<Step>, i: nat)
    requires Run(steps) && i in After(steps).results
    ensures
      var op := After(steps).results[i].op;
      && op.samples == Offered(steps, i) <= Reported(steps, i) && |op.calls| == |op.samples|
      && (op.panicked <==> PanicSeen(steps, i))
      && (!PanicSeen(steps, i) ==> op.samples == Reported(steps, i))
  {
    CallsAreOffered(steps, i);
  }

  /** What the caller of run_with_callback gets, given the code of the native call. */
  function RunOfConclusion(c: Conclusion, code: U32): CallbackRun {
    match c
    case Refused(_) => NotStarted
    case Ended(op) => if op.panicked then Unwound else Finished(code)
  }

  /** The calls end as those of the progress gate in front of `user` do. */
  predicate GateCalls(calls: seq<bool>, user: Closure, samples: seq<U32>) {
    forall k | 0 <= k < |calls| :: calls[k] == (k < StrictPrefix(samples) && user(k))
  }

  /**
    However operations and callbacks interleave: for a closure that is the progress gate in front of `user`, every
    operation ends as the sequential account of it says for the samples reported to it, the slot being taken
    exactly if the operation was refused.
   */
  lemma ConclusionIsRun(steps: seq<Step>, i: nat, user: Closure, code: U32)
    requires Run(steps) && i in After(steps).results
    requires GateCalls(After(steps).results[i].op.calls, user, Reported(steps, i))
    ensures
      var c := After(steps).results[i];
      RunOfConclusion(c, code) == RunOf(c.Refused?, user, Reported(steps, i), code)
  {
    RunKeeps(steps);
    CallsAreOffered(steps, i);
    var c := After(steps).results[i];
    if c.Ended? {
      GatePanics(c.op.panicked, c.op.calls, user, Reported(steps, i));
    }
  }

  lemma GatePanics(panicked: bool, calls: seq<bool>, user: Closure, samples: seq<U32>)
    requires Captured(panicked, calls) && GateCalls(calls, user, samples) && (!panicked ==> |calls| == |samples|)
    ensures panicked <==> PanicsWithin(user, StrictPrefix(samples))
  {
    if panicked {
      assert user(|calls| - 1);
    } else {
      assert forall i: nat | i < StrictPrefix(samples) :: !calls[i];
    }
  }

  /**
    An operation is refused exactly if, when it tries, another thread has the lock, or when it has the lock, a
    lease is live.
   */
  lemma RefusedExactlyOnConflict(steps: seq<Step>, i: nat)
    requires Run(steps) && i !in After(steps).results
    ensures
      var s := After(steps);
      && (Enabled(s, TryLock(i)) ==> (i in Next(s, TryLock(i)).results <==> s.lock != None))
      && (Enabled(s, Install(i)) ==>
            (i in Next(s, Install(i)).results <==> exists k: nat :: k in s.ops && Leased(s.ops[k].stage)))
  {
    RunKeeps(steps);
    ConflictIsLease(After(steps));
  }

  lemma ConflictIsLease(s: State)
    requires SlotAgrees(s)
    ensures s.slot.Some? <==> exists k: nat :: k in s.ops && Leased(s.ops[k].stage)
  {
    if s.slot.Some? {
      assert s.slot == Some(s.slot.value);
    } else if k: nat :| k in s.ops && Leased(s.ops[k].stage) {
      assert s.slot == Some(k);
    }
  }

  /** Any thread may start an operation, a running closure too; Windows may call at any time; a closure may panic. */
  lemma AlwaysPossible(steps: seq<Step>, i: nat, j: nat, k: nat, sample: U32, panics: bool)
    requires Run(steps) && i !in After(steps).ops && i !in After(steps).results && j !in After(steps).trampolines
    ensures Enabled(After(steps), Start(i, None)) && Enabled(After(steps), Called(j, k, sample))
    ensures forall host | IsCalling(After(steps), host) :: Enabled(After(steps), Start(i, Some(host)))
    ensures forall host | IsCalling(After(steps), host) && (forall op :: !Hosts(After(steps), host, op)) ::
              Enabled(After(steps), ClosureReturns(host, panics))
  {}

  lemma CapturedMeans(panicked: bool, calls: seq<bool>)
    requires Captured(panicked, calls)
    ensures panicked <==> true in calls
  {
    if true in calls {
      var k :| 0 <= k < |calls| && calls[k];
    }
  }

  /** Nobody waits for ever: while an operation or a trampoline is in flight, one of them can move. */
  lemma NeverStuck(steps: seq<Step>) returns (step: Step)
    requires Run(steps) && (After(steps).ops != map[] || After(steps).trampolines != map[])
    ensures Enabled(After(steps), step) && !step.Start? && !step.Called?
  {
    RunKeeps(steps);
    step := CanMove(After(steps));
  }

  lemma CanMove(s: State) returns (step: Step)
    requires Inv(s) && (s.ops != map[] || s.trampolines != map[])
    ensures Enabled(s, step) && !step.Start? && !step.Called?
  {
    match s.lock {
      case Some(ByOp(i)) =>
        assert OpAt(s, i, Installing) || OpAt(s, i, Clearing);
        step := if OpAt(s, i, Installing) then Install(i) else Clear(i);
      case Some(ByTrampoline(j)) =>
        assert j in s.trampolines && !s.trampolines[j].Waiting?;
        if s.trampolines[j].Locked? {
          step := Dereference(j);
        } else if i: nat :| Hosts(s, j, i) {
          step := TryLock(i);
        } else {
          step := ClosureReturns(j, false);
        }
      case None =>
        if s.trampolines != map[] {
          var j: nat :| j in s.trampolines;
          step := Lock(j);
        } else {
          var i: nat :| i in s.ops;
          assert !OpAt(s, i, Installing) && !OpAt(s, i, Clearing);
          step := match s.ops[i].stage
            case Entering => TryLock(i)
            case InNative => NativeReturns(i)
            case Returned => LockToClear(i)
            case _ => Inspect(i);
        }
    }
  }

  // ----- Every operation comes to its end -----

  function OpRank(op: Op): nat {
    match op.stage
    case Entering => 6
    case Installing => 5
    case InNative => 4
    case Returned => 3
    case Clearing => 2
    case Inspecting => 1
  }

  function TrampolineRank(stage: Trampoline): nat {
    match stage
    case Waiting(_, _) => 3
    case Locked(_, _) => 2
    case Calling(_, _, _) => 1
  }

  /** The steps that are left at most for the operations and calls in flight, all numbered below `bound`. */
  function Work(s: State, bound: nat): nat {
    Load(OpRank, s.ops, bound) + Load(TrampolineRank, s.trampolines, bound)
  }

  predicate Numbered(s: State, bound: nat) {
    Below(s.ops, bound) && Below(s.trampolines, bound)
  }

  lemma StepUsesWork(s: State, step: Step, bound: nat)
    requires SlotAgrees(s) && CallsAgree(s) && Enabled(s, step) && !step.Start? && !step.Called? && Numbered(s, bound)
    ensures Work(Next(s, step), bound) < Work(s, bound) && Numbered(Next(s, step), bound)
  {
    match step {
      case TryLock(i) =>
        LoadPut(OpRank, s.ops, i, s.ops[i].(stage := Installing), bound);
        LoadRemoved(OpRank, s.ops, i, bound);
      case Install(i) =>
        LoadPut(OpRank, s.ops, i, s.ops[i].(stage := InNative, leased := true), bound);
        LoadRemoved(OpRank, s.ops, i, bound);
      case NativeReturns(i) => LoadPut(OpRank, s.ops, i, s.ops[i].(stage := Returned), bound);
      case LockToClear(i) => LoadPut(OpRank, s.ops, i, s.ops[i].(stage := Clearing), bound);
      case Clear(i) => LoadPut(OpRank, s.ops, i, s.ops[i].(stage := Inspecting), bound);
      case Inspect(i) => LoadRemoved(OpRank, s.ops, i, bound);
      case Lock(j) => LoadPut(TrampolineRank, s.trampolines, j, LockedOf(s.trampolines[j]), bound);
      case Dereference(j) => DereferenceUsesWork(s, j, bound);
      case ClosureReturns(j, panics) =>
        var i := s.trampolines[j].op;
        LoadRemoved(TrampolineRank, s.trampolines, j, bound);
        LoadPut(OpRank, s.ops, i, Next(s, step).ops[i], bound);
    }
  }

  lemma DereferenceUsesWork(s: State, j: nat, bound: nat)
    requires SlotAgrees(s) && Enabled(s, Dereference(j)) && Numbered(s, bound)
    ensures Work(Next(s, Dereference(j)), bound) < Work(s, bound) && Numbered(Next(s, Dereference(j)), bound)
  {
    LoadRemoved(TrampolineRank, s.trampolines, j, bound);
    if s.slot.Some? {
      var i := s.slot.value;
      LoadPut(TrampolineRank, s.trampolines, j, CallingOf(s.trampolines[j], i), bound);
      if i in s.ops {
        LoadPut(OpRank, s.ops, i, WithSample(s.ops[i], s.trampolines[j].sample), bound);
      }
    }
  }

  /**
    Once no operation and no call is started any more, whatever the order of the threads: at most `Work` steps
    follow, and when they cannot go on no operation and no call is in flight.
   */
  lemma {:induction false} OperationsDrain(steps: seq<Step>, more: seq<Step>, bound: nat)
    requires Run(steps) && Run(steps + more) && Numbered(After(steps), bound)
    requires forall k | 0 <= k < |more| :: !more[k].Start? && !more[k].Called?
    ensures |more| + Work(After(steps + more), bound) <= Work(After(steps), bound)
    ensures Numbered(After(steps + more), bound)
    ensures
      (forall step | Enabled(After(steps + more), step) :: step.Start? || step.Called?) ==>
        After(steps + more).ops == map[] && After(steps + more).trampolines == map[]
    decreases |more|
  {
    hide Enabled, Next, Work, Numbered;
    if more == [] {
      assert steps + more == steps;
    } else {
      var init, step := more[..|more| - 1], more[|more| - 1];
      assert (steps + more)[..|steps + more| - 1] == steps + init && (steps + more)[|steps + more| - 1] == step;
      OperationsDrain(steps, init, bound);
      RunKeeps(steps + init);
      StepUsesWork(After(steps + init), step, bound);
    }
    if After(steps + more).ops != map[] || After(steps + more).trampolines != map[] {
      var step := NeverStuck(steps + more);
    }
  }

  // ----- Which lease a call reaches -----

  /**
    A call that finds a lease reaches the closure it was made for exactly if that operation's lease is still
    live then; no matter when the call was begun.
   */
  lemma ReachesOwnLeaseExactly(steps: seq<Step>, j: nat)
    requires Run(steps) && Enabled(After(steps), Dereference(j)) && After(steps).slot.Some?
    ensures
      var s := After(steps);
      var i := s.trampolines[j].madeFor;
      s.slot == Some(i) <==> i in s.ops && Leased(s.ops[i].stage)
  {
    RunKeeps(steps);
  }

  /** Windows calls for an operation only while its native call runs, and has finished those calls when it returns. */
  ghost predicate Punctual(s: State, step: Step) {
    && (step.Called? ==> OpAt(s, step.op, InNative))
    && (step.NativeReturns? ==> forall j | j in s.trampolines :: s.trampolines[j].madeFor != step.op)
  }

  ghost predicate PunctualRun(steps: seq<Step>)
    requires Run(steps)
  {
    steps == [] ||
    (var init := steps[..|steps| - 1];
     PunctualRun(init) && Punctual(After(init), steps[|steps| - 1]))
  }

  /** Every call in flight was made for an operation whose native call runs. */
  ghost predicate MadeForLive(s: State) {
    forall j | j in s.trampolines :: OpAt(s, s.trampolines[j].madeFor, InNative)
  }

  /** With a punctual Windows every closure call belongs to the operation it was made for. */
  lemma {:induction false} PunctualCallsReachTheirLease(steps: seq<Step>, j: nat)
    requires Run(steps) && PunctualRun(steps) && IsCalling(After(steps), j)
    ensures After(steps).trampolines[j].madeFor == After(steps).trampolines[j].op
  {
    PunctualRunKeeps(steps);
    RunKeeps(steps);
    var s := After(steps);
    assert OpAt(s, s.trampolines[j].madeFor, InNative);
    InvIsExclusive(s, s.trampolines[j].madeFor, j);
  }

  lemma {:induction false} PunctualRunKeeps(steps: seq<Step>)
    requires Run(steps) && PunctualRun(steps)
    ensures MadeForLive(After(steps))
  {
    if steps != [] {
      var init := steps[..|steps| - 1];
      PunctualRunKeeps(init);
      StepKeepsMadeFor(After(init), steps[|steps| - 1]);
    }
  }

  lemma StepKeepsMadeFor(s: State, step: Step)
    requires MadeForLive(s) && Enabled(s, step) && Punctual(s, step)
    ensures MadeForLive(Next(s, step))
  {}

  lemma RunSnoc(steps: seq<Step>, s: State, step: Step, next: State)
    requires Run(steps) && After(steps) == s && Enabled(s, step) && next == Next(s, step)
    ensures Run(steps + [step]) && After(steps + [step]) == next
  {
    assert (steps + [step])[..|steps|] == steps;
  }

  /** An operation at this stage whose closure was not called. */
  function Uncalled(stage: Stage): Op {
    Op(stage, None, !stage.Entering? && !stage.Installing?, false, [], [])
  }

  /** A whole operation that nobody disturbs, up to the return of its native call. */
  lemma Undisturbed(steps: seq<Step>, s: State, i: nat) returns (more: seq<Step>)
    requires Run(steps) && After(steps) == s && s.ops == map[] && s.slot == None && s.lock == None && i !in s.results
    ensures steps <= more && Run(more) && After(more) == s.(ops := map[i := Uncalled(InNative)], slot := Some(i))
  {
    hide Run, After;
    var entered := s.(ops := map[i := Uncalled(Entering)]);
    RunSnoc(steps, s, Start(i, None), entered);
    var installing := s.(ops := map[i := Uncalled(Installing)], lock := Some(ByOp(i)));
    RunSnoc(steps + [Start(i, None)], entered, TryLock(i), installing);
    more := steps + [Start(i, None)] + [TryLock(i)] + [Install(i)];
    RunSnoc(steps + [Start(i, None)] + [TryLock(i)], installing, Install(i),
            s.(ops := map[i := Uncalled(InNative)], slot := Some(i)));
  }

  /** The operation's native call has returned; its lease is dropped and its panic field read. */
  lemma RunsToItsEnd(steps: seq<Step>, s: State, i: nat) returns (more: seq<Step>)
    requires Run(steps) && After(steps) == s && s.ops == map[i := Uncalled(InNative)]
    requires s.slot == Some(i) && s.lock == None
    ensures steps <= more && Run(more)
    ensures After(more) == s.(ops := map[], slot := None, results := s.results[i := Ended(Uncalled(Inspecting))])
  {
    hide Run, After;
    var clearing := s.(ops := map[i := Uncalled(Clearing)], lock := Some(ByOp(i)));
    more := ReturnedAndLocked(steps, s, i);
    var inspecting := s.(ops := map[i := Uncalled(Inspecting)], slot := None);
    RunSnoc(more, clearing, Clear(i), inspecting);
    RunSnoc(more + [Clear(i)], inspecting, Inspect(i),
            s.(ops := map[], slot := None, results := s.results[i := Ended(Uncalled(Inspecting))]));
    more := more + [Clear(i)] + [Inspect(i)];
  }

  lemma ReturnedAndLocked(steps: seq<Step>, s: State, i: nat) returns (more: seq<Step>)
    requires Run(steps) && After(steps) == s && s.ops == map[i := Uncalled(InNative)] && s.lock == None
    ensures steps <= more && Run(more)
    ensures After(more) == s.(ops := map[i := Uncalled(Clearing)], lock := Some(ByOp(i)))
  {
    hide Run, After;
    var returned := s.(ops := map[i := Uncalled(Returned)]);
    RunSnoc(steps, s, NativeReturns(i), returned);
    RunSnoc(steps + [NativeReturns(i)], returned, LockToClear(i),
            s.(ops := map[i := Uncalled(Clearing)], lock := Some(ByOp(i))));
    more := steps + [NativeReturns(i)] + [LockToClear(i)];
  }

  /** A waiting call made for operation 0 finds the lease of operation 1. */
  lemma Misdirected(steps: seq<Step>, s: State) returns (more: seq<Step>)
    requires Run(steps) && After(steps) == s && s.trampolines == map[7 := Waiting(0, 50)]
    requires s.ops == map[1 := Uncalled(InNative)] && s.slot == Some(1) && s.lock == None
    ensures steps <= more && Run(more) && After(more).trampolines == map[7 := Calling(0, 50, 1)]
  {
    hide Run, After;
    var locked := s.(trampolines := map[7 := Locked(0, 50)], lock := Some(ByTrampoline(7)));
    RunSnoc(steps, s, Lock(7), locked);
    RunSnoc(steps + [Lock(7)], locked, Dereference(7),
            locked.(trampolines := map[7 := Calling(0, 50, 1)], ops := map[1 := WithSample(Uncalled(InNative), 50)]));
    more := steps + [Lock(7)] + [Dereference(7)];
  }

  /** A call that began while its operation's native call ran, and was then delayed, reaches the next lease. */
  lemma LateCallReachesNextLease() returns (steps: seq<Step>, k: nat)
    ensures Run(steps) && After(steps).trampolines == map[7 := Calling(0, 50, 1)]
    ensures k < |steps| && steps[k] == Called(7, 0, 50) && Run(steps[..k]) && OpAt(After(steps[..k]), 0, InNative)
  {
    hide Run, After;
    EmptyRun();
    var first := Undisturbed([], INITIAL, 0);
    var s := After(first);
    var called := s.(trampolines := map[7 := Waiting(0, 50)]);
    RunSnoc(first, s, Called(7, 0, 50), called);
    var over := RunsToItsEnd(first + [Called(7, 0, 50)], called, 0);
    var second := Undisturbed(over, After(over), 1);
    steps := Misdirected(second, After(second));
    k := |first|;
    assert steps[..k] == first;
  }

  /** So does a call that Windows makes for an operation that is already over. */
  lemma LateStartReachesNextLease() returns (steps: seq<Step>, k: nat)
    ensures Run(steps) && After(steps).trampolines == map[7 := Calling(0, 50, 1)]
    ensures k < |steps| && steps[k] == Called(7, 0, 50) && Run(steps[..k]) && 0 in After(steps[..k]).results
  {
    hide Run, After;
    EmptyRun();
    var first := Undisturbed([], INITIAL, 0);
    var over := RunsToItsEnd(first, After(first), 0);
    var second := Undisturbed(over, After(over), 1);
    var s := After(second);
    RunSnoc(second, s, Called(7, 0, 50), s.(trampolines := map[7 := Waiting(0, 50)]));
    steps := Misdirected(second + [Called(7, 0, 50)], s.(trampolines := map[7 := Waiting(0, 50)]));
    k := |second|;
    assert steps[..k] == second;
  }

  lemma EmptyRun()
    ensures Run([]) && After([]) == INITIAL
  {}

  /** A closure that starts an operation itself. */
  lemma ReentryHappens() returns (steps: seq<Step>)
    ensures Run(steps) && Hosts(After(steps), 7, 1)
  {
    hide Run, After;
    EmptyRun();
    var first := Undisturbed([], INITIAL, 0);
    var s := After(first);
    var called := s.(trampolines := map[7 := Waiting(0, 50)]);
    RunSnoc(first, s, Called(7, 0, 50), called);
    var locked := s.(trampolines := map[7 := Locked(0, 50)], lock := Some(ByTrampoline(7)));
    RunSnoc(first + [Called(7, 0, 50)], called, Lock(7), locked);
    var calling := locked.(trampolines := map[7 := Calling(0, 50, 0)], ops := map[0 := WithSample(Uncalled(InNative), 50)]);
    RunSnoc(first + [Called(7, 0, 50)] + [Lock(7)], locked, Dereference(7), calling);
    steps := first + [Called(7, 0, 50)] + [Lock(7)] + [Dereference(7)] + [Start(1, Some(7))];
    RunSnoc(first + [Called(7, 0, 50)] + [Lock(7)] + [Dereference(7)], calling, Start(1, Some(7)),
            Next(calling, Start(1, Some(7))));
  }
}
