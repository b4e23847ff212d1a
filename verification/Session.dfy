/**
  The blocking session: its native handle and the recovery typestates, as objects that change in place.

  Every object records the run of SessionProtocol that its native calls are, so that what is proved there
  for all runs holds of the code here. What a native call returns is a parameter of the operation.
 */
module Session {
  import opened NativeTypes
  import opened Wrappers
  import opened SessionTrace
  import opened SessionProtocol
  import opened Progress
  import opened WideText

  // ----- Runs of the protocol that one operation takes, uninterrupted -----

  /** The steps are a run that leads to `state` with these native calls. */
  ghost predicate Recorded(steps: seq<Step>, state: State, calls: seq<Event>) {
    Run(steps) && After(steps) == state && TraceOf(steps) == calls
  }

  lemma RecordedStep(steps: seq<Step>, s: State, calls: seq<Event>, step: Step)
    requires Recorded(steps, s, calls) && Enabled(s, step)
    ensures Recorded(steps + [step], Next(s, step), calls + Logged(Emits(s, step)))
  {
    RunSnoc(steps, step);
  }

  /** A session between two operations: nobody holds the mutex and no canceller is left. */
  function Quiet(owner: Owner, ended: bool): State {
    State(owner, map[], None, ended, if owner == Gone then Freed else Alive)
  }

  lemma TwoSteps(steps: seq<Step>, s: State, calls: seq<Event>, a: Step, b: Step, to: State, log: seq<Event>)
    requires Recorded(steps, s, calls) && Enabled(s, a) && Enabled(Next(s, a), b)
    requires to == Next(Next(s, a), b) && log == Logged(Emits(s, a)) + Logged(Emits(Next(s, a), b))
    ensures Recorded(steps + [a, b], to, calls + log)
  {
    hide Recorded, Enabled, Next, Emits, Logged;
    RecordedStep(steps, s, calls, a);
    RecordedStep(steps + [a], Next(s, a), calls + Logged(Emits(s, a)), b);
    assert steps + [a] + [b] == steps + [a, b];
    assert calls + Logged(Emits(s, a)) + Logged(Emits(Next(s, a), b)) == calls + log;
  }

  lemma OneStep(steps: seq<Step>, s: State, calls: seq<Event>, a: Step, to: State, log: seq<Event>)
    requires Recorded(steps, s, calls) && Enabled(s, a) && to == Next(s, a) && log == Logged(Emits(s, a))
    ensures Recorded(steps + [a], to, calls + log)
  {
    RecordedStep(steps, s, calls, a);
  }

  /** `end` before its native call. */
  const LOCKED_FOR_END := State(EndLocked, map[], Some(ByOwner), false, Alive)

  lemma EndRuns(steps: seq<Step>, owner: Owner, calls: seq<Event>, ok: bool)
    requires Idle(owner) && Recorded(steps, Quiet(owner, false), calls)
    ensures Recorded(steps + [WantEnd, LockForEnd, BeginEnd, EndReturns(ok)], Quiet(Releasing, ok),
                     calls + [EndBegin(Explicit), EndReturn(Explicit, ok)])
  {
    hide Recorded;
    var locking, ending := [WantEnd, LockForEnd], [BeginEnd, EndReturns(ok)];
    TwoSteps(steps, Quiet(owner, false), calls, WantEnd, LockForEnd, LOCKED_FOR_END, []);
    assert calls + [] == calls;
    EndReturnRuns(steps + locking, calls, ok);
    assert steps + locking + ending == steps + [WantEnd, LockForEnd, BeginEnd, EndReturns(ok)];
  }

  lemma EndReturnRuns(steps: seq<Step>, calls: seq<Event>, ok: bool)
    requires Recorded(steps, LOCKED_FOR_END, calls)
    ensures Recorded(steps + [BeginEnd, EndReturns(ok)], Quiet(Releasing, ok),
                     calls + [EndBegin(Explicit), EndReturn(Explicit, ok)])
  {
    hide Recorded;
    TwoSteps(steps, LOCKED_FOR_END, calls, BeginEnd, EndReturns(ok), Quiet(Releasing, ok),
             [EndBegin(Explicit), EndReturn(Explicit, ok)]);
  }

  /** The steps of a cancel that nothing else interrupts; it only reaches the native call before the end. */
  function CancelSteps(ended: bool, thread: nat): seq<Step> {
    [Upgrade(thread), LockForCancel(thread)]
    + (if ended then [CancelRefused(thread)] else [BeginCancel(thread), CancelReturns(thread)])
    + [CancellerReleases(thread)]
  }

  function CancelCalls(ended: bool, thread: nat): seq<Event> {
    if ended then [] else [CancelBegin(thread), CancelReturn(thread)]
  }

  function InCancel(owner: Owner, ended: bool, thread: nat, stage: Canceller): State {
    State(owner, map[thread := stage], if stage.Leaving? then None else Some(ByCanceller(thread)), ended, Alive)
  }

  lemma CancelRuns(steps: seq<Step>, owner: Owner, ended: bool, calls: seq<Event>, thread: nat)
    requires owner != Gone && Recorded(steps, Quiet(owner, ended), calls)
    ensures Recorded(steps + CancelSteps(ended, thread), Quiet(owner, ended), calls + CancelCalls(ended, thread))
  {
    hide Recorded;
    var locking := [Upgrade(thread), LockForCancel(thread)];
    var locked := InCancel(owner, ended, thread, Locked);
    CancelLocks(steps, owner, ended, calls, thread);
    var left := InCancel(owner, ended, thread, Leaving(ended));
    if ended {
      OneStep(steps + locking, locked, calls, CancelRefused(thread), left, []);
      assert calls + [] == calls;
      CancelLeaves(steps + locking + [CancelRefused(thread)], owner, ended, calls, thread);
      assert steps + locking + [CancelRefused(thread)] + [CancellerReleases(thread)]
          == steps + CancelSteps(ended, thread);
    } else {
      var call := [BeginCancel(thread), CancelReturns(thread)];
      CancelReaches(steps + locking, owner, calls, thread);
      CancelLeaves(steps + locking + call, owner, ended, calls + CancelCalls(ended, thread), thread);
      assert steps + locking + call + [CancellerReleases(thread)] == steps + CancelSteps(ended, thread);
    }
  }

  lemma CancelLocks(steps: seq<Step>, owner: Owner, ended: bool, calls: seq<Event>, thread: nat)
    requires owner != Gone && Recorded(steps, Quiet(owner, ended), calls)
    ensures Recorded(steps + [Upgrade(thread), LockForCancel(thread)], InCancel(owner, ended, thread, Locked), calls)
  {
    hide Recorded;
    var locked := InCancel(owner, ended, thread, Locked);
    assert map[thread := Upgraded][thread := Locked] == map[thread := Locked];
    TwoSteps(steps, Quiet(owner, ended), calls, Upgrade(thread), LockForCancel(thread), locked, []);
    assert calls + [] == calls;
  }

  lemma CancelReaches(steps: seq<Step>, owner: Owner, calls: seq<Event>, thread: nat)
    requires Recorded(steps, InCancel(owner, false, thread, Locked), calls)
    ensures Recorded(steps + [BeginCancel(thread), CancelReturns(thread)],
                     InCancel(owner, false, thread, Leaving(false)), calls + CancelCalls(false, thread))
  {
    hide Recorded;
    var left := InCancel(owner, false, thread, Leaving(false));
    assert map[thread := Locked][thread := InNative][thread := Leaving(false)] == map[thread := Leaving(false)];
    TwoSteps(steps, InCancel(owner, false, thread, Locked), calls, BeginCancel(thread), CancelReturns(thread), left,
             CancelCalls(false, thread));
  }

  lemma CancelLeaves(steps: seq<Step>, owner: Owner, ended: bool, calls: seq<Event>, thread: nat)
    requires owner != Gone && Recorded(steps, InCancel(owner, ended, thread, Leaving(ended)), calls)
    ensures Recorded(steps + [CancellerReleases(thread)], Quiet(owner, ended), calls)
  {
    hide Recorded;
    var left := InCancel(owner, ended, thread, Leaving(ended));
    assert left.cancellers - {thread} == map[];
    OneStep(steps, left, calls, CancellerReleases(thread), Quiet(owner, ended), []);
    assert calls + [] == calls;
  }

  /** The calls of the last owner's destructor, if the session was not ended before. */
  function FinalCalls(ended: bool, ok: bool): seq<Event> {
    if ended then [] else [EndBegin(Final), EndReturn(Final, ok)]
  }

  function FinalSteps(ended: bool, ok: bool): seq<Step> {
    if ended then [OwnerReleases] else [OwnerReleases, FinalReturns(ok)]
  }

  lemma ReleaseRuns(steps: seq<Step>, ended: bool, calls: seq<Event>, ok: bool)
    requires Recorded(steps, Quiet(Releasing, ended), calls)
    ensures Recorded(steps + FinalSteps(ended, ok), Quiet(Gone, true), calls + FinalCalls(ended, ok))
  {
    hide Recorded;
    if ended {
      OneStep(steps, Quiet(Releasing, ended), calls, OwnerReleases, Quiet(Gone, true), []);
    } else {
      TwoSteps(steps, Quiet(Releasing, ended), calls, OwnerReleases, FinalReturns(ok), Quiet(Gone, true),
               FinalCalls(ended, ok));
    }
  }

  // ----- The objects -----

  class SessionHandle {
    var ended: bool
    var references: nat          // the strong count of the Arc
    ghost var stage: Owner       // the typestate that owns the handle
    ghost var calls: seq<Event>  // the native calls so far
    ghost var history: seq<Step> // the steps of the protocol that they are

    ghost predicate Valid()
      reads this
    {
      && Recorded(history, Quiet(stage, ended), calls)
      && references == (if stage == Gone then 0 else 1)
      && (Working(stage) ==> !ended)
    }

    /** RmStartSession or RmJoinSession succeeded. */
    constructor ()
      ensures Valid() && stage == Starting && calls == [] && references == 1
    {
      ended, references, stage, calls, history := false, 1, Starting, [], [];
    }

    /** The owner's typestate changes by one step. */
    ghost method Move(step: Step, to: Owner, log: seq<Event>)
      requires Valid() && Working(stage) && OwnerStep(step) && to != Gone
      requires Enabled(Quiet(stage, false), step) && Next(Quiet(stage, false), step) == Quiet(to, false)
      requires log == Logged(Emits(Quiet(stage, false), step))
      modifies this`stage, this`calls, this`history
      ensures Valid() && stage == to && calls == old(calls) + log && history == old(history) + [step]
    {
      hide Recorded;
      OneStep(history, Quiet(stage, false), calls, step, Quiet(to, false), log);
      history, stage, calls := history + [step], to, calls + log;
    }

    /** RmShutdown was called and returned, or its callback panicked. */
    ghost method ShutDown(unwinds: bool)
      requires Valid() && stage == Primary
      modifies this`stage, this`calls, this`history
      ensures Valid() && stage == (if unwinds then Unwinding else Pending)
      ensures calls == old(calls) + [Event.Shutdown]
    {
      hide Recorded;
      Move(BeginShutdown, ShuttingDown, [Event.Shutdown]);
      if unwinds {
        Move(ShutdownUnwinds, Unwinding, []);
      } else {
        Move(ShutdownReturns, Pending, []);
      }
    }

    /** RmRestart was called by the typestate and returned, or its callback panicked. */
    ghost method Restarted(unwinds: bool)
      requires Valid() && stage == Pending
      modifies this`stage, this`calls, this`history
      ensures Valid() && stage == (if unwinds then Unwinding else Completion)
      ensures calls == old(calls) + [Event.Restart] + (if unwinds then [RestartUnwound] else [])
    {
      hide Recorded;
      Move(BeginRestart, Restarting, [Event.Restart]);
      if unwinds {
        Move(RestartUnwinds, Unwinding, [RestartUnwound]);
      } else {
        Move(RestartReturns, Completion, []);
      }
    }

    /** RmRestart was called by the destructor of the pending typestate. */
    ghost method Recovered()
      requires Valid() && (stage == Pending || stage == Unwinding)
      modifies this`stage, this`calls, this`history
      ensures Valid() && stage == Releasing
      ensures calls == old(calls) + [Event.Restart]
    {
      hide Recorded;
      Dropped();
      Move(BeginRecovery, Recovering, [Event.Restart]);
      assert calls == old(calls) + [Event.Restart];
      Move(RecoveryReturns, Releasing, []);
    }

    /** A pending typestate goes out of scope, by a panic or without one. */
    ghost method Dropped()
      requires Valid() && (stage == Pending || stage == Unwinding)
      modifies this`stage, this`calls, this`history
      ensures Valid() && stage == Unwinding && calls == old(calls)
    {
      hide Recorded;
      if stage == Pending {
        Move(DropPending, Unwinding, []);
      }
    }

    /** Any operation that only registers, lists or filters makes some calls of that kind. */
    method Inquire(count: nat)
      requires Valid() && Idle(stage)
      modifies this
      ensures Valid() && stage == old(stage)
      ensures calls == old(calls) + seq(count, _ => Query)
    {
      hide Recorded;
      for i := 0 to count
        invariant Valid() && stage == old(stage)
        invariant calls == old(calls) + seq(i, _ => Query)
      {
        assert seq(i + 1, _ => Query) == seq(i, _ => Query) + [Query];
        Move(Queries, stage, [Query]);
      }
    }

    method Shutdown(code: U32) returns (r: SysResult<()>)
      requires Valid() && stage == Primary
      modifies this
      ensures Valid() && stage == Pending
      ensures calls == old(calls) + [Event.Shutdown]
      ensures r == Check(code)
    {
      hide Recorded;
      ShutDown(false);
      r := Check(code);
    }

    method ShutdownWithProgress(slotTaken: bool, callback: ProgressCallback, samples: seq<U32>, code: U32)
      returns (run: CallbackRun)
      requires Valid() && stage == Primary && callback.Saw([])
      modifies this, callback
      ensures Valid() && run == RunOf(slotTaken, callback.user, samples, code)
      ensures run.NotStarted? ==> unchanged(this)
      ensures run.Unwound? ==> stage == Unwinding
      ensures run.Finished? ==> stage == Pending && callback.malformed == !Strict(samples)
      ensures !run.NotStarted? ==> calls == old(calls) + [Event.Shutdown]
    {
      hide Recorded;
      run := RunWithCallback(slotTaken, callback, samples, code);
      if !run.NotStarted? {
        ShutDown(run.Unwound?);
      }
    }

    /** The owner is a pending typestate, or its destructor. */
    method Restart(code: U32, dropping: bool) returns (r: SysResult<()>)
      requires Valid() && (stage == Pending || (stage == Unwinding && dropping))
      modifies this
      ensures Valid() && !ended && stage == if dropping then Releasing else Completion
      ensures calls == old(calls) + [Event.Restart]
      ensures r == Check(code)
    {
      hide Recorded;
      if dropping {
        Recovered();
      } else {
        Restarted(false);
      }
      r := Check(code);
    }

    method RestartWithProgress(slotTaken: bool, callback: ProgressCallback, samples: seq<U32>, code: U32)
      returns (run: CallbackRun)
      requires Valid() && stage == Pending && callback.Saw([])
      modifies this, callback
      ensures Valid() && run == RunOf(slotTaken, callback.user, samples, code)
      ensures run.NotStarted? ==> unchanged(this)
      ensures run.Unwound? ==> stage == Unwinding && calls == old(calls) + [Event.Restart, RestartUnwound]
      ensures run.Finished? ==> stage == Completion && calls == old(calls) + [Event.Restart]
      ensures run.Finished? ==> callback.malformed == !Strict(samples)
    {
      hide Recorded;
      run := RunWithCallback(slotTaken, callback, samples, code);
      if !run.NotStarted? {
        Restarted(run.Unwound?);
      }
    }

    /** CancellationHandle::cancel, by any thread between two operations of the owner. */
    method Cancel(code: U32, thread: nat) returns (r: SysResult<()>)
      requires Valid()
      modifies this
      ensures Valid() && stage == old(stage) && ended == old(ended)
      ensures
        if old(references) == 0 || old(ended) then r == Err(SysError.SessionEnded) && calls == old(calls)
        else r == Check(code) && calls == old(calls) + [CancelBegin(thread), CancelReturn(thread)]
    {
      hide Recorded;
      if references == 0 {
        OneStep(history, Quiet(stage, ended), calls, UpgradeFails(thread), Quiet(stage, ended), []);
        history, calls := history + [UpgradeFails(thread)], calls + [];
        return Err(SysError.SessionEnded);
      }
      CancelRuns(history, stage, ended, calls, thread);
      references := references + 1;
      if ended {
        r := Err(SysError.SessionEnded);
      } else {
        r := Check(code);
      }
      references := references - 1;
      history, calls := history + CancelSteps(ended, thread), calls + CancelCalls(ended, thread);
      assert calls == old(calls) + CancelCalls(ended, thread);
    }

    method End(code: U32) returns (r: SysResult<()>)
      requires Valid() && Idle(stage)
      modifies this
      ensures Valid() && stage == Releasing
      ensures calls == old(calls) + [EndBegin(Explicit), EndReturn(Explicit, code == ERROR_SUCCESS)]
      ensures r == Check(code) && ended == r.Ok?
    {
      hide Recorded;
      if ended {
        return Ok(());
      }
      EndRuns(history, stage, calls, code == ERROR_SUCCESS);
      r := Check(code);
      if r.Ok? {
        ended := true;
      }
      stage := Releasing;
      history := history + [WantEnd, LockForEnd, BeginEnd, EndReturns(code == ERROR_SUCCESS)];
      calls := calls + [EndBegin(Explicit), EndReturn(Explicit, code == ERROR_SUCCESS)];
    }

    /** The owner drops its strong reference; the last one runs the destructor. */
    method Release(code: U32)
      requires Valid() && stage == Releasing
      modifies this
      ensures Valid() && stage == Gone && references == 0
      ensures calls == old(calls) + FinalCalls(old(ended), code == ERROR_SUCCESS)
    {
      hide Recorded;
      ReleaseRuns(history, ended, calls, code == ERROR_SUCCESS);
      stage := Gone;
      history := history + FinalSteps(ended, code == ERROR_SUCCESS);
      calls := calls + FinalCalls(ended, code == ERROR_SUCCESS);
      references := references - 1;
      if references == 0 && !ended {
        ended := true;
      }
    }
  }

  // ----- The typestates -----

  /** RestartSession: a value that every consuming operation moves. */
  datatype RestartSession = RestartSession(core: SessionHandle)

  datatype JoinedSession = JoinedSession(core: SessionHandle)

  datatype RecoveryOutcome = RecoveryOutcome(shutdown: OperationOutcome, restart: Option<OperationOutcome>)

  datatype RecoveryCompletion = RecoveryCompletion(core: SessionHandle, outcome: RecoveryOutcome)

  /** How a consuming operation with progress ends. */
  datatype Consumed<S, T> =
    | Moved(next: T)
    | Unmoved(state: S)  // OperationNotStarted: the state comes back
    | PanicResumed       // the state was dropped while unwinding

  /** A native call's return code, and those of the calls that its typestate's destructor may add. */
  datatype Codes = Codes(code: U32, recovery: U32, final: U32)

  class RestartPending {
    var core: Option<SessionHandle>
    var shutdown: Option<OperationOutcome>

    constructor (core: SessionHandle)
      ensures this.core == Some(core) && shutdown == Some(Succeeded)
    {
      this.core, shutdown := Some(core), Some(Succeeded);
    }

    /** The recovery arm is loaded. */
    ghost predicate Armed(handle: SessionHandle)
      reads this, handle
    {
      core == Some(handle) && shutdown.Some? && handle.Valid() && handle.stage == Pending
    }

    method TakeCore() returns (handle: SessionHandle)
      requires core.Some?
      modifies this`core
      ensures core == None && handle == old(core.value)
    {
      handle := core.value;
      core := None;
    }

    method TakeShutdown() returns (outcome: OperationOutcome)
      requires shutdown.Some?
      modifies this`shutdown
      ensures shutdown == None && outcome == old(shutdown.value)
    {
      outcome := shutdown.value;
      shutdown := None;
    }

    /** The destructor: one best-effort restart, then the last reference goes. */
    method Drop(codes: Codes)
      requires core.Some? ==>
                 core.value.Valid() && (core.value.stage == Pending || core.value.stage == Unwinding)
      modifies this, if core.Some? then {core.value} else {}
      ensures core == None
      ensures
        old(core).Some? ==>
          var handle := old(core.value);
          && handle.Valid() && handle.stage == Gone
          && handle.calls == old(handle.calls) + [Event.Restart] + FinalCalls(false, codes.final == ERROR_SUCCESS)
    {
      hide Recorded;
      if core.Some? {
        var handle := TakeCore();
        var _ := handle.Restart(codes.recovery, true);
        handle.Release(codes.final);
      }
    }

    method Restart(code: U32, ghost handle: SessionHandle) returns (completion: RecoveryCompletion)
      requires Armed(handle)
      modifies this, handle
      ensures core == None && handle.Valid() && handle.stage == Completion
      ensures handle.calls == old(handle.calls) + [Event.Restart]
      ensures
        completion == RecoveryCompletion(
          handle, RecoveryOutcome(old(shutdown.value), Some(OutcomeOf(code, false))))
    {
      hide Recorded;
      var result := core.value.Restart(code, false);
      var restart := match result case Ok(_) => Succeeded case Err(e) => Failed(Native(code));
      var outcome := TakeShutdown();
      var owner := TakeCore();
      completion := RecoveryCompletion(owner, RecoveryOutcome(outcome, Some(restart)));
    }

    /**
      The native call consumes the state unless the callback slot is taken. If the closure panics, the armed
      state is dropped while unwinding, which restarts once more and ends the session.
     */
    method RestartWithProgress(
        slotTaken: bool, callback: ProgressCallback, samples: seq<U32>, codes: Codes, ghost handle: SessionHandle)
      returns (r: Consumed<RestartPending, RecoveryCompletion>)
      requires Armed(handle) && callback.Saw([])
      modifies this, handle, callback
      ensures r.Unmoved? <==> slotTaken
      ensures slotTaken ==> r == Unmoved(this) && unchanged(this) && unchanged(handle)
      ensures handle.Valid()
      ensures
        r.Moved? ==>
          && core == None && handle.stage == Completion && handle.calls == old(handle.calls) + [Event.Restart]
          && r.next == RecoveryCompletion(
               handle, RecoveryOutcome(old(shutdown.value), Some(OutcomeOf(codes.code, !Strict(samples)))))
      ensures
        r.PanicResumed? ==>
          && core == None && handle.stage == Gone
          && handle.calls == old(handle.calls)
               + [Event.Restart, RestartUnwound, Event.Restart] + FinalCalls(false, codes.final == ERROR_SUCCESS)
      ensures !slotTaken ==> (r.PanicResumed? <==> PanicsWithin(callback.user, StrictPrefix(samples)))
    {
      hide Recorded;
      var run := core.value.RestartWithProgress(slotTaken, callback, samples, codes.code);
      if run.NotStarted? {
        return Unmoved(this);
      }
      if run.Unwound? {
        Drop(codes);
        assert old(handle.calls) + [Event.Restart, RestartUnwound] + [Event.Restart]
            == old(handle.calls) + [Event.Restart, RestartUnwound, Event.Restart];
        return PanicResumed;
      }
      var restart := OutcomeOf(codes.code, callback.malformed);
      var outcome := TakeShutdown();
      var owner := TakeCore();
      r := Moved(RecoveryCompletion(owner, RecoveryOutcome(outcome, Some(restart))));
    }

    method LeaveStopped(ghost handle: SessionHandle) returns (completion: RecoveryCompletion)
      requires Armed(handle)
      modifies this, handle
      ensures core == None && handle.Valid() && handle.stage == Completion
      ensures handle.calls == old(handle.calls) + [LeftStopped]
      ensures completion == RecoveryCompletion(handle, RecoveryOutcome(old(shutdown.value), None))
    {
      hide Recorded;
      var outcome := TakeShutdown();
      var owner := TakeCore();
      owner.Move(Step.LeaveStopped, Completion, [LeftStopped]);
      completion := RecoveryCompletion(owner, RecoveryOutcome(outcome, None));
    }
  }

  method ShutdownWithOptions(session: RestartSession, code: U32) returns (pending: RestartPending)
    requires session.core.Valid() && session.core.stage == Primary
    modifies session.core
    ensures fresh(pending) && pending.Armed(session.core)
    ensures pending.shutdown == Some(OutcomeOf(code, false))
    ensures session.core.calls == old(session.core.calls) + [Event.Shutdown]
  {
    hide Recorded;
    pending := new RestartPending(session.core);
    var result := session.core.Shutdown(code);
    pending.shutdown := Some(match result case Ok(_) => Succeeded case Err(e) => Failed(Native(code)));
  }

  method ShutdownWithProgress(
      session: RestartSession, slotTaken: bool, callback: ProgressCallback, samples: seq<U32>, codes: Codes)
    returns (r: Consumed<RestartSession, RestartPending>)
    requires session.core.Valid() && session.core.stage == Primary && callback.Saw([])
    modifies session.core, callback
    ensures r.Unmoved? <==> slotTaken
    ensures slotTaken ==> r == Unmoved(session) && unchanged(session.core)
    ensures session.core.Valid()
    ensures
      r.Moved? ==>
        && fresh(r.next) && r.next.Armed(session.core)
        && r.next.shutdown == Some(OutcomeOf(codes.code, !Strict(samples)))
        && session.core.calls == old(session.core.calls) + [Event.Shutdown]
    ensures
      r.PanicResumed? ==>
        && session.core.stage == Gone
        && session.core.calls == old(session.core.calls)
             + [Event.Shutdown, Event.Restart] + FinalCalls(false, codes.final == ERROR_SUCCESS)
    ensures !slotTaken ==> (r.PanicResumed? <==> PanicsWithin(callback.user, StrictPrefix(samples)))
  {
    hide Recorded;
    var pending := new RestartPending(session.core);
    var run := session.core.ShutdownWithProgress(slotTaken, callback, samples, codes.code);
    if run.NotStarted? {
      var owner := pending.TakeCore();
      pending.Drop(codes);
      return Unmoved(RestartSession(owner));
    }
    if run.Unwound? {
      pending.Drop(codes);
      assert old(session.core.calls) + [Event.Shutdown] + [Event.Restart]
          == old(session.core.calls) + [Event.Shutdown, Event.Restart];
      return PanicResumed;
    }
    pending.shutdown := Some(OutcomeOf(codes.code, callback.malformed));
    r := Moved(pending);
  }

  /** SessionCore::end: an explicit end, then the last reference goes; a failed end is tried once more. */
  method EndSession(core: SessionHandle, codes: Codes) returns (r: SysResult<()>)
    requires core.Valid() && Idle(core.stage)
    modifies core
    ensures core.Valid() && core.stage == Gone
    ensures r == Check(codes.code)
    ensures
      core.calls == old(core.calls)
        + [EndBegin(Explicit), EndReturn(Explicit, codes.code == ERROR_SUCCESS)]
        + FinalCalls(codes.code == ERROR_SUCCESS, codes.final == ERROR_SUCCESS)
  {
    hide Recorded;
    r := core.End(codes.code);
    core.Release(codes.final);
  }

  /** RecoveryCompletion::end returns the retained outcomes if the first attempt succeeds. */
  method EndCompletion(completion: RecoveryCompletion, codes: Codes) returns (r: SysResult<RecoveryOutcome>)
    requires completion.core.Valid() && completion.core.stage == Completion
    modifies completion.core
    ensures completion.core.Valid() && completion.core.stage == Gone
    ensures r == if codes.code == ERROR_SUCCESS then Ok(completion.outcome) else Err(Os(codes.code))
    ensures
      completion.core.calls == old(completion.core.calls)
        + [EndBegin(Explicit), EndReturn(Explicit, codes.code == ERROR_SUCCESS)]
        + FinalCalls(codes.code == ERROR_SUCCESS, codes.final == ERROR_SUCCESS)
  {
    hide Recorded;
    var ended := EndSession(completion.core, codes);
    if ended.Err? {
      return Err(ended.error);
    }
    return Ok(completion.outcome);
  }

  /** An idle typestate goes out of scope. */
  method DropIdle(core: SessionHandle, codes: Codes)
    requires core.Valid() && Idle(core.stage)
    modifies core
    ensures core.Valid() && core.stage == Gone
    ensures core.calls == old(core.calls) + FinalCalls(false, codes.final == ERROR_SUCCESS)
  {
    hide Recorded;
    core.Move(DropPlain, Releasing, []);
    core.Release(codes.final);
  }

  /**
    RestartSession::new after RmStartSession succeeded and wrote `field`: the session and its key, or a handle
    that is dropped again because the field does not hold a key.
   */
  method OpenSession(field: seq<Unit>, codes: Codes)
    returns (core: SessionHandle, r: SysResult<(RestartSession, seq<Unit>)>)
    ensures fresh(core) && core.Valid()
    ensures
      match SessionKey(field)
      case Ok(key) => r == Ok((RestartSession(core), key)) && core.stage == Primary && core.calls == []
      case Err(e) =>
        && r == Err(e) && core.stage == Gone
        && core.calls == FinalCalls(false, codes.final == ERROR_SUCCESS)
  {
    hide Recorded;
    core := new SessionHandle();
    var decoded := DecodeFixed(field);
    if decoded.Err? || !IsValidKey(decoded.value) {
      core.Move(KeyRejected, Releasing, []);
      core.Release(codes.final);
      return core, Err(if decoded.Err? then decoded.error else MalformedOutput);
    }
    core.Move(KeyDecoded, Primary, []);
    return core, Ok((RestartSession(core), decoded.value));
  }

  /** JoinedSession::join after RmJoinSession succeeded. */
  method JoinSession() returns (session: JoinedSession)
    ensures fresh(session.core) && session.core.Valid() && session.core.stage == Joined && session.core.calls == []
  {
    hide Recorded;
    var core := new SessionHandle();
    core.Move(KeyJoined, Joined, []);
    session := JoinedSession(core);
  }

  /** What the protocol says of every session object at any time. */
  lemma CallsAreDisciplined(handle: SessionHandle)
    requires handle.Valid()
    ensures Disciplined(handle.calls)
    ensures handle.references == 0 ==> Conserved(CountsOf(handle.calls))
  {
    RunKeeps(handle.history);
    if handle.references == 0 {
      OneSuccess(handle.calls);
      FreedIsConserved(After(handle.history), CountsOf(handle.calls));
    }
  }
}
