/**
  One session key, its owner and any number of cancelling threads.

  The owner runs the blocking typestates; every holder of a cancellation handle may upgrade its weak
  reference, take the `ended` mutex and cancel. Whoever drops the last strong reference runs the
  destructor. A step is one atomic action of one thread; a native call takes two, its issue and its return.
 */
module SessionProtocol {
  import opened Wrappers
  import opened SessionTrace
  import opened Workload

  datatype Owner =
    | Starting         // the key exists, its text is not yet decoded
    | Primary          // RestartSession
    | Joined           // JoinedSession
    | ShuttingDown     // inside RmShutdown
    | Pending          // RestartPending, armed
    | Restarting       // inside RmRestart, called by restart or restart_with_progress
    | Unwinding        // an armed RestartPending is being dropped
    | Recovering       // inside RmRestart, called by the destructor
    | Completion       // RecoveryCompletion
    | EndWanted        // SessionCore::end, before the mutex
    | EndLocked        // the same, holding the mutex
    | InEnd            // inside RmEndSession, holding the mutex
    | Releasing        // about to drop its strong reference
    | Gone

  datatype Canceller =
    | Upgraded
    | Locked
    | InNative
    | Leaving(refused: bool) // with SessionEnded, or with the code of the native call

  datatype Holder = ByOwner | ByCanceller(thread: nat)

  datatype Life =
    | Alive
    | Finishing // the last reference is gone, the destructor is inside RmEndSession
    | Freed

  datatype State = State(
    owner: Owner, cancellers: map<nat, Canceller>, mutex: Option<Holder>, ended: bool, life: Life)

  datatype Step =
    | KeyDecoded | KeyRejected | KeyJoined
    | Queries
    | BeginShutdown | ShutdownReturns | ShutdownUnwinds
    | BeginRestart | RestartReturns | RestartUnwinds
    | LeaveStopped
    | DropPending | BeginRecovery | RecoveryReturns
    | DropPlain
    | WantEnd | LockForEnd | EndFoundDone | BeginEnd | EndReturns(ok: bool)
    | OwnerReleases
    | FinalReturns(ok: bool)
    | Upgrade(thread: nat) | UpgradeFails(thread: nat)
    | LockForCancel(thread: nat) | CancelRefused(thread: nat)
    | BeginCancel(thread: nat) | CancelReturns(thread: nat)
    | CancellerReleases(thread: nat)

  const INITIAL := State(Starting, map[], None, false, Alive)

  /** Whether a strong reference exists, so that a weak one can be upgraded. */
  predicate Owned(s: State) {
    s.owner != Gone || s.cancellers != map[]
  }

  /** Thread `t` is at this stage of `cancel`. */
  predicate At(s: State, t: nat, stage: Canceller) {
    t in s.cancellers && s.cancellers[t] == stage
  }

  /** Dropping a strong reference: the last one runs SessionHandle's destructor. */
  function Released(s: State): State {
    if Owned(s) then s
    else if s.ended then s.(life := Freed)
    else s.(life := Finishing, ended := true)
  }

  function ReleaseEmits(s: State): Option<Event> {
    if Owned(s) || s.ended then None else Some(EndBegin(Final))
  }

  function Turned(s: State, t: nat, stage: Canceller): State {
    s.(cancellers := s.cancellers[t := stage])
  }

  function WithoutCanceller(s: State, t: nat): State {
    s.(cancellers := s.cancellers - {t})
  }

  predicate Idle(owner: Owner) {
    owner == Primary || owner == Joined || owner == Completion
  }

  /** What the program can do in this state. */
  predicate Enabled(s: State, step: Step) {
    match step
    case KeyDecoded => s.owner == Starting
    case KeyRejected => s.owner == Starting
    case KeyJoined => s.owner == Starting
    case Queries => Idle(s.owner)
    case BeginShutdown => s.owner == Primary
    case ShutdownReturns => s.owner == ShuttingDown
    case ShutdownUnwinds => s.owner == ShuttingDown
    case BeginRestart => s.owner == Pending
    case RestartReturns => s.owner == Restarting
    case RestartUnwinds => s.owner == Restarting
    case LeaveStopped => s.owner == Pending
    case DropPending => s.owner == Pending
    case BeginRecovery => s.owner == Unwinding
    case RecoveryReturns => s.owner == Recovering
    case DropPlain => Idle(s.owner)
    case WantEnd => Idle(s.owner)
    case LockForEnd => s.owner == EndWanted && s.mutex == None
    case EndFoundDone => s.owner == EndLocked && s.ended
    case BeginEnd => s.owner == EndLocked && !s.ended
    case EndReturns(_) => s.owner == InEnd
    case OwnerReleases => s.owner == Releasing
    case FinalReturns(_) => s.life == Finishing
    case Upgrade(t) => Owned(s) && t !in s.cancellers
    case UpgradeFails(t) => !Owned(s) && t !in s.cancellers
    case LockForCancel(t) => At(s, t, Upgraded) && s.mutex == None
    case CancelRefused(t) => At(s, t, Locked) && s.ended
    case BeginCancel(t) => At(s, t, Locked) && !s.ended
    case CancelReturns(t) => At(s, t, InNative)
    case CancellerReleases(t) => t in s.cancellers && s.cancellers[t].Leaving?
  }

  /** The state after a step. */
  function Next(s: State, step: Step): State {
    match step
    case KeyDecoded => s.(owner := Primary)
    case KeyRejected => s.(owner := Releasing)
    case KeyJoined => s.(owner := Joined)
    case Queries => s
    case BeginShutdown => s.(owner := ShuttingDown)
    case ShutdownReturns => s.(owner := Pending)
    case ShutdownUnwinds => s.(owner := Unwinding)
    case BeginRestart => s.(owner := Restarting)
    case RestartReturns => s.(owner := Completion)
    case RestartUnwinds => s.(owner := Unwinding)
    case LeaveStopped => s.(owner := Completion)
    case DropPending => s.(owner := Unwinding)
    case BeginRecovery => s.(owner := Recovering)
    case RecoveryReturns => s.(owner := Releasing)
    case DropPlain => s.(owner := Releasing)
    case WantEnd => s.(owner := EndWanted)
    case LockForEnd => s.(owner := EndLocked, mutex := Some(ByOwner))
    case EndFoundDone => s.(owner := Releasing, mutex := None)
    case BeginEnd => s.(owner := InEnd)
    case EndReturns(ok) => s.(owner := Releasing, mutex := None, ended := s.ended || ok)
    case OwnerReleases => Released(s.(owner := Gone))
    case FinalReturns(ok) => s.(life := Freed)
    case Upgrade(t) => Turned(s, t, Upgraded)
    case UpgradeFails(t) => s
    case LockForCancel(t) => Turned(s.(mutex := Some(ByCanceller(t))), t, Locked)
    case CancelRefused(t) => Turned(s.(mutex := None), t, Leaving(true))
    case BeginCancel(t) => Turned(s, t, InNative)
    case CancelReturns(t) => Turned(s.(mutex := None), t, Leaving(false))
    case CancellerReleases(t) => Released(WithoutCanceller(s, t))
  }

  /** The native call, return or opt-out that a step is, if any. */
  function Emits(s: State, step: Step): Option<Event> {
    match step
    case Queries => Some(Query)
    case BeginShutdown => Some(Shutdown)
    case BeginRestart => Some(Restart)
    case RestartUnwinds => Some(RestartUnwound)
    case LeaveStopped => Some(LeftStopped)
    case BeginRecovery => Some(Restart)
    case BeginEnd => Some(EndBegin(Explicit))
    case EndReturns(ok) => Some(EndReturn(Explicit, ok))
    case OwnerReleases => ReleaseEmits(s.(owner := Gone))
    case FinalReturns(ok) => Some(EndReturn(Final, ok))
    case BeginCancel(t) => Some(CancelBegin(t))
    case CancelReturns(t) => Some(CancelReturn(t))
    case CancellerReleases(t) => ReleaseEmits(WithoutCanceller(s, t))
    case _ => None
  }

  /** A whole run: every step is one the program can take in the state it is taken in. */
  predicate Run(steps: seq<Step>) {
    steps == [] || (Run(steps[..|steps| - 1]) && Enabled(After(steps[..|steps| - 1]), steps[|steps| - 1]))
  }

  function After(steps: seq<Step>): State {
    if steps == [] then INITIAL else Next(After(steps[..|steps| - 1]), steps[|steps| - 1])
  }

  function TraceOf(steps: seq<Step>): seq<Event> {
    if steps == [] then []
    else
      var init := steps[..|steps| - 1];
      match Emits(After(init), steps[|steps| - 1])
      case None => TraceOf(init)
      case Some(e) => TraceOf(init) + [e]
  }

  // ----- The invariant, over the counts of the events so far -----

  ghost predicate MutexAgrees(s: State) {
    && ((s.owner == EndLocked || s.owner == InEnd) <==> s.mutex == Some(ByOwner))
    && (forall t: nat :: (At(s, t, Locked) || At(s, t, InNative)) <==> s.mutex == Some(ByCanceller(t)))
  }

  predicate StageAgrees(owner: Owner, n: Counts) {
    match owner
    case Starting => !Has(n, Shutdown) && n(Restart) == n(RestartUnwound) == n(LeftStopped) == 0
    case Primary => !Has(n, Shutdown) && n(Restart) == n(RestartUnwound) == n(LeftStopped) == 0
    case Joined => !Has(n, Shutdown) && n(Restart) == n(RestartUnwound) == n(LeftStopped) == 0
    case ShuttingDown => Has(n, Shutdown) && n(Restart) == n(RestartUnwound) == n(LeftStopped) == 0
    case Pending => Has(n, Shutdown) && n(Restart) == n(RestartUnwound) == n(LeftStopped) == 0
    case Restarting => Has(n, Shutdown) && n(Restart) == 1 && n(RestartUnwound) == n(LeftStopped) == 0
    case Unwinding => Has(n, Shutdown) && n(Restart) == n(RestartUnwound) <= 1 && n(LeftStopped) == 0
    case _ => Answered(n)
  }

  /** A shutdown was answered by one restart, plus one for a panicking callback, or left on purpose. */
  predicate Answered(n: Counts) {
    && n(RestartUnwound) <= 1
    && n(Restart) == if Has(n, Shutdown) && !Has(n, LeftStopped) then n(RestartUnwound) + 1 else 0
  }

  predicate EndsAgree(s: State, n: Counts) {
    && n(EndBegin(Explicit)) ==
         n(EndReturn(Explicit, true)) + n(EndReturn(Explicit, false)) + (if s.owner == InEnd then 1 else 0)
    && n(EndBegin(Final)) ==
         n(EndReturn(Final, true)) + n(EndReturn(Final, false)) + (if s.life == Finishing then 1 else 0)
    && n(EndBegin(Explicit)) <= (if s.owner == InEnd || s.owner == Releasing || s.owner == Gone then 1 else 0)
    && n(EndBegin(Final)) <= (if s.life == Alive then 0 else 1)
    && (s.life == Alive ==> (s.ended <==> Has(n, EndReturn(Explicit, true))))
    && (s.life != Alive ==> s.ended && EndTried(n))
    && (s.life == Finishing ==> !Has(n, EndReturn(Explicit, true)))
    && (s.life == Freed ==> Closed(n))
  }

  ghost predicate CancelsAgree(s: State, n: Counts) {
    && (forall t: nat :: n(CancelBegin(t)) == n(CancelReturn(t)) + (if At(s, t, InNative) then 1 else 0))
    && (s.ended ==> forall t: nat :: !At(s, t, InNative))
  }

  ghost predicate Inv(s: State, n: Counts) {
    && (s.life == Alive <==> Owned(s))
    && MutexAgrees(s)
    && StageAgrees(s.owner, n)
    && EndsAgree(s, n)
    && CancelsAgree(s, n)
  }

  /** `m` counts one more `log` than `n`. */
  ghost predicate Counted(n: Counts, log: Option<Event>, m: Counts) {
    forall x :: m(x) == n(x) + if log == Some(x) then 1 else 0
  }

  ghost predicate Logs(n: Counts, log: Option<Event>) {
    log.Some? ==> Allowed(n, log.value)
  }

  // ----- Every step keeps it -----

  predicate EndPhaseStep(step: Step) {
    step.LockForEnd? || step.EndFoundDone? || step.BeginEnd? || step.EndReturns? || step.OwnerReleases?
    || step.FinalReturns?
  }

  predicate CancelStep(step: Step) {
    step.Upgrade? || step.UpgradeFails? || step.LockForCancel? || step.CancelRefused? || step.BeginCancel? || step.CancelReturns?
    || step.CancellerReleases?
  }

  predicate OwnerStep(step: Step) {
    !EndPhaseStep(step) && !CancelStep(step)
  }

  /** The owner's stages before it ends or releases the session. */
  predicate Working(owner: Owner) {
    owner != EndLocked && owner != InEnd && owner != Releasing && owner != Gone
  }

  lemma OwnerStepLogs(s: State, step: Step, n: Counts)
    requires StageAgrees(s.owner, n) && EndsAgree(s, n) && s.life == Alive && Working(s.owner)
    requires OwnerStep(step) && Enabled(s, step)
    ensures Logs(n, Emits(s, step))
  {
    assert !EndTried(n) && !Closed(n) && !Ending(n);
  }

  lemma OwnerStepStage(s: State, step: Step, n: Counts, m: Counts)
    requires StageAgrees(s.owner, n)
    requires OwnerStep(step) && Enabled(s, step) && Counted(n, Emits(s, step), m)
    ensures StageAgrees(Next(s, step).owner, m)
  {
    assert m(Shutdown) >= n(Shutdown) && m(Restart) >= n(Restart);
  }

  /** What the owner's steps before the end phase leave alone. */
  lemma OwnerStepFrame(s: State, step: Step, t: State)
    requires OwnerStep(step) && Enabled(s, step) && t == Next(s, step)
    ensures t == s.(owner := t.owner)
    ensures Working(s.owner) && (Working(t.owner) || t.owner == Releasing)
    ensures Emits(s, step).Some? ==> Plain(Emits(s, step).value)
  {}

  /** Events that neither end nor cancel. */
  predicate Plain(e: Event) {
    e.Query? || e.Shutdown? || e.Restart? || e.RestartUnwound? || e.LeftStopped?
  }

  lemma PlainCounts(s: State, t: State, n: Counts, log: Option<Event>, m: Counts)
    requires MutexAgrees(s) && EndsAgree(s, n) && CancelsAgree(s, n) && Counted(n, log, m)
    requires t == s.(owner := t.owner) && Working(s.owner) && (Working(t.owner) || t.owner == Releasing)
    requires log.Some? ==> Plain(log.value)
    ensures MutexAgrees(t) && EndsAgree(t, m) && CancelsAgree(t, m)
  {}

  lemma OwnerStepKeeps(s: State, step: Step, n: Counts, m: Counts)
    requires Inv(s, n) && OwnerStep(step) && Enabled(s, step) && Counted(n, Emits(s, step), m)
    ensures Inv(Next(s, step), m) && Logs(n, Emits(s, step))
  {
    var t := Next(s, step);
    OwnerStepFrame(s, step, t);
    OwnerStepLogs(s, step, n);
    OwnerStepStage(s, step, n, m);
    PlainCounts(s, t, n, Emits(s, step), m);
  }

  /** Nobody is inside RmCancelCurrentTask while the owner holds the mutex, or when it is alone. */
  lemma NobodyCancels(s: State, n: Counts)
    requires MutexAgrees(s) && CancelsAgree(s, n)
    requires s.mutex == Some(ByOwner) || s.cancellers == map[]
    ensures !Cancelling(n) && (forall t: nat :: !At(s, t, InNative))
  {}

  lemma EndStepLogs(s: State, step: Step, n: Counts)
    requires Inv(s, n) && Enabled(s, step) && EndPhaseStep(step) && !step.OwnerReleases?
    ensures Logs(n, Emits(s, step))
  {
    if step.BeginEnd? {
      NobodyCancels(s, n);
    }
  }

  lemma EndStepCounts(s: State, step: Step, n: Counts, m: Counts)
    requires EndsAgree(s, n) && (s.life == Alive <==> Owned(s))
    requires EndPhaseStep(step) && !step.OwnerReleases? && Enabled(s, step) && Counted(n, Emits(s, step), m)
    ensures EndsAgree(Next(s, step), m)
  {
    assert forall k: EndKind :: m(EndBegin(k)) >= n(EndBegin(k));
    assert forall k: EndKind, ok: bool :: m(EndReturn(k, ok)) >= n(EndReturn(k, ok));
  }

  lemma EndStepStage(s: State, step: Step, n: Counts, m: Counts)
    requires StageAgrees(s.owner, n)
    requires EndPhaseStep(step) && !step.OwnerReleases? && Enabled(s, step) && Counted(n, Emits(s, step), m)
    ensures StageAgrees(Next(s, step).owner, m)
  {
    assert m(Shutdown) == n(Shutdown) && m(Restart) == n(Restart) && m(LeftStopped) == n(LeftStopped);
    assert m(RestartUnwound) == n(RestartUnwound);
  }

  lemma EndStepMutex(s: State, step: Step, n: Counts, m: Counts)
    requires MutexAgrees(s) && CancelsAgree(s, n) && (s.life == Alive <==> Owned(s))
    requires EndPhaseStep(step) && !step.OwnerReleases? && Enabled(s, step) && Counted(n, Emits(s, step), m)
    ensures MutexAgrees(Next(s, step)) && CancelsAgree(Next(s, step), m)
  {
    var t := Next(s, step);
    assert t.cancellers == s.cancellers;
    if step.EndReturns? {
      NobodyCancels(s, n);
    }
    forall k: nat ensures m(CancelBegin(k)) == m(CancelReturn(k)) + (if At(t, k, InNative) then 1 else 0) {
      assert At(t, k, InNative) == At(s, k, InNative);
    }
  }

  /** Dropping a strong reference, by whichever thread. */
  lemma ReleasedKeeps(s: State, n: Counts, m: Counts)
    requires s.life == Alive && MutexAgrees(s) && EndsAgree(s, n) && CancelsAgree(s, n)
    requires StageAgrees(s.owner, n)
    requires Counted(n, ReleaseEmits(s), m)
    ensures Inv(Released(s), m) && Logs(n, ReleaseEmits(s))
  {
    if Owned(s) {
      SameCounts(s, n, m);
    } else {
      NobodyCancels(s, n);
      ReleasedCounts(s, n, m);
    }
  }

  lemma SameCounts(s: State, n: Counts, m: Counts)
    requires StageAgrees(s.owner, n) && EndsAgree(s, n) && CancelsAgree(s, n) && Counted(n, None, m)
    ensures StageAgrees(s.owner, m) && EndsAgree(s, m) && CancelsAgree(s, m)
  {}

  lemma ReleasedCounts(s: State, n: Counts, m: Counts)
    requires s.life == Alive && !Owned(s) && StageAgrees(s.owner, n) && EndsAgree(s, n)
    requires CancelsAgree(s, n) && Counted(n, ReleaseEmits(s), m)
    ensures StageAgrees(s.owner, m) && EndsAgree(Released(s), m) && CancelsAgree(Released(s), m)
  {
    assert m(Shutdown) == n(Shutdown) && m(Restart) == n(Restart) && m(LeftStopped) == n(LeftStopped);
  }

  lemma OwnerReleasesKeeps(s: State, n: Counts, m: Counts)
    requires Inv(s, n) && s.owner == Releasing && Counted(n, Emits(s, OwnerReleases), m)
    ensures Inv(Next(s, OwnerReleases), m) && Logs(n, Emits(s, OwnerReleases))
  {
    var rest := s.(owner := Gone);
    assert forall t: nat, stage: Canceller :: At(rest, t, stage) == At(s, t, stage);
    ReleasedKeeps(rest, n, m);
  }

  lemma EndPhaseKeeps(s: State, step: Step, n: Counts, m: Counts)
    requires Inv(s, n) && EndPhaseStep(step) && !step.OwnerReleases?
    requires Enabled(s, step) && Counted(n, Emits(s, step), m)
    ensures Inv(Next(s, step), m) && Logs(n, Emits(s, step))
  {
    EndStepCounts(s, step, n, m);
    EndStepStage(s, step, n, m);
    EndStepMutex(s, step, n, m);
    EndStepLogs(s, step, n);
  }

  lemma CancelStepMutex(s: State, step: Step)
    requires MutexAgrees(s) && CancelStep(step) && !step.CancellerReleases? && Enabled(s, step)
    ensures MutexAgrees(Next(s, step))
  {}

  /** Cancelling moves neither the counts of the ends nor those of the typestates. */
  lemma CancelStepEnds(s: State, t: State, n: Counts, log: Option<Event>, m: Counts)
    requires EndsAgree(s, n) && StageAgrees(s.owner, n) && Counted(n, log, m)
    requires log.Some? ==> log.value.CancelBegin? || log.value.CancelReturn?
    requires t.owner == s.owner && t.life == s.life && t.ended == s.ended
    ensures EndsAgree(t, m) && StageAgrees(s.owner, m)
  {
    assert forall x: Event :: Plain(x) || x.EndBegin? || x.EndReturn? ==> m(x) == n(x);
  }

  lemma CancelStepCancels(s: State, step: Step, n: Counts, m: Counts)
    requires MutexAgrees(s) && CancelsAgree(s, n) && Counted(n, Emits(s, step), m)
    requires CancelStep(step) && !step.CancellerReleases? && Enabled(s, step)
    ensures CancelsAgree(Next(s, step), m)
  {
    var t := Next(s, step);
    forall k: nat ensures m(CancelBegin(k)) == m(CancelReturn(k)) + (if At(t, k, InNative) then 1 else 0) {
      assert k != step.thread ==> At(t, k, InNative) == At(s, k, InNative);
    }
  }

  lemma CancelStepLogs(s: State, step: Step, n: Counts)
    requires Inv(s, n) && CancelStep(step) && !step.CancellerReleases? && Enabled(s, step)
    ensures Logs(n, Emits(s, step))
  {}

  lemma CancelPhaseKeeps(s: State, step: Step, n: Counts, m: Counts)
    requires Inv(s, n) && CancelStep(step) && !step.CancellerReleases?
    requires Enabled(s, step) && Counted(n, Emits(s, step), m)
    ensures Inv(Next(s, step), m) && Logs(n, Emits(s, step))
  {
    CancelStepMutex(s, step);
    CancelStepEnds(s, Next(s, step), n, Emits(s, step), m);
    CancelStepCancels(s, step, n, m);
    CancelStepLogs(s, step, n);
  }

  lemma CancellerReleasesKeeps(s: State, t: nat, n: Counts, m: Counts)
    requires Inv(s, n) && Enabled(s, CancellerReleases(t)) && Counted(n, Emits(s, CancellerReleases(t)), m)
    ensures Inv(Next(s, CancellerReleases(t)), m) && Logs(n, Emits(s, CancellerReleases(t)))
  {
    var rest := WithoutCanceller(s, t);
    assert forall k: nat, stage: Canceller | !stage.Leaving? :: At(rest, k, stage) == At(s, k, stage);
    ReleasedKeeps(rest, n, m);
  }

  /** The inductive step: the invariant is kept, and what the step calls is allowed by the discipline. */
  lemma StepKeeps(s: State, step: Step, n: Counts, m: Counts)
    requires Inv(s, n) && Enabled(s, step) && Counted(n, Emits(s, step), m)
    ensures Inv(Next(s, step), m) && Logs(n, Emits(s, step))
  {
    if step.OwnerReleases? {
      OwnerReleasesKeeps(s, n, m);
    } else if step.CancellerReleases? {
      CancellerReleasesKeeps(s, step.thread, n, m);
    } else if EndPhaseStep(step) {
      EndPhaseKeeps(s, step, n, m);
    } else if CancelStep(step) {
      CancelPhaseKeeps(s, step, n, m);
    } else {
      OwnerStepKeeps(s, step, n, m);
    }
  }

  // ----- What it says about whole runs -----

  /** Over every run, with any number of cancelling threads, the native calls follow the discipline. */
  lemma RunIsDisciplined(steps: seq<Step>)
    requires Run(steps)
    ensures Disciplined(TraceOf(steps))
  {
    RunKeeps(steps);
  }

  lemma {:induction false} RunKeeps(steps: seq<Step>)
    requires Run(steps)
    ensures Disciplined(TraceOf(steps))
    ensures Inv(After(steps), CountsOf(TraceOf(steps)))
  {
    if steps != [] {
      var init, step := steps[..|steps| - 1], steps[|steps| - 1];
      RunKeeps(init);
      var log := Emits(After(init), step);
      Extends(TraceOf(init), log, TraceOf(steps));
      StepKeeps(After(init), step, CountsOf(TraceOf(init)), CountsOf(TraceOf(steps)));
      if log.Some? {
        DisciplinedSnoc(TraceOf(init), log.value);
      }
    }
  }

  lemma Extends(trace: seq<Event>, log: Option<Event>, longer: seq<Event>)
    requires longer == match log case None => trace case Some(e) => trace + [e]
    ensures Counted(CountsOf(trace), log, CountsOf(longer))
  {
    if log.Some? {
      TimesSnoc(trace, log.value);
    }
  }

  // ----- Every session comes to its end -----

  /** Steps that start something: a further query, or a further cancel. */
  predicate NewWork(step: Step) {
    step.Queries? || step.Upgrade? || step.UpgradeFails?
  }

  function OwnerRank(owner: Owner): nat {
    match owner
    case Starting => 11
    case Primary => 10
    case ShuttingDown => 9
    case Pending => 8
    case Restarting => 7
    case Unwinding => 6
    case Joined => 5
    case Completion => 5
    case EndWanted => 4
    case EndLocked => 3
    case InEnd => 2
    case Recovering => 2
    case Releasing => 1
    case Gone => 0
  }

  function CancellerRank(stage: Canceller): nat {
    match stage
    case Upgraded => 4
    case Locked => 3
    case InNative => 2
    case Leaving(_) => 1
  }

  function LifeRank(life: Life): nat {
    match life
    case Alive => 2
    case Finishing => 1
    case Freed => 0
  }

  /** The steps that are left at most, if nothing new is started; all threads are numbered below `bound`. */
  function Work(s: State, bound: nat): nat {
    OwnerRank(s.owner) + LifeRank(s.life) + Load(CancellerRank, s.cancellers, bound)
  }

  /** Every step that starts nothing new uses up work. */
  lemma StepUsesWork(s: State, step: Step, bound: nat)
    requires (s.life == Alive <==> Owned(s)) && Enabled(s, step) && !NewWork(step) && Below(s.cancellers, bound)
    ensures Work(Next(s, step), bound) < Work(s, bound) && Below(Next(s, step).cancellers, bound)
  {
    match step {
      case LockForCancel(t) => LoadPut(CancellerRank, s.cancellers, t, Locked, bound);
      case CancelRefused(t) => LoadPut(CancellerRank, s.cancellers, t, Leaving(true), bound);
      case BeginCancel(t) => LoadPut(CancellerRank, s.cancellers, t, InNative, bound);
      case CancelReturns(t) => LoadPut(CancellerRank, s.cancellers, t, Leaving(false), bound);
      case CancellerReleases(t) => LoadRemoved(CancellerRank, s.cancellers, t, bound);
      case _ =>
    }
  }

  /** The step is the owner's, or that of the canceller whose mutex the owner waits for. */
  predicate ServesOwner(s: State, step: Step) {
    !CancelStep(step) || (s.owner == EndWanted && s.mutex == Some(ByCanceller(step.thread)))
  }

  /**
    Nobody waits for ever: as long as the session is not freed, a step is possible that starts nothing new.
    While there is an owner it is the owner's, or comes from the canceller that holds the owner's mutex.
   */
  lemma NeverStuck(steps: seq<Step>) returns (step: Step)
    requires Run(steps) && After(steps).life != Freed
    ensures Enabled(After(steps), step) && !NewWork(step)
    ensures After(steps).owner != Gone ==> ServesOwner(After(steps), step)
  {
    RunKeeps(steps);
    step := SomeoneCanMove(After(steps), CountsOf(TraceOf(steps)));
  }

  lemma SomeoneCanMove(s: State, n: Counts) returns (step: Step)
    requires Inv(s, n) && s.life != Freed
    ensures Enabled(s, step) && !NewWork(step)
    ensures s.owner != Gone ==> ServesOwner(s, step)
  {
    hide StageAgrees, EndsAgree, CancelsAgree;
    if s.owner != Gone && !(s.owner == EndWanted && s.mutex != None) {
      step := OwnerCanMove(s);
    } else if s.mutex.Some? {
      assert s.mutex.value.ByCanceller?;
      var t := s.mutex.value.thread;
      assert At(s, t, Locked) || At(s, t, InNative);
      step := CancellerCanMove(s, t);
    } else if s.cancellers != map[] {
      var t: nat :| t in s.cancellers;
      step := CancellerCanMove(s, t);
    } else {
      step := FinalReturns(true);
    }
  }

  predicate StartsNothing(steps: seq<Step>) {
    forall k | 0 <= k < |steps| :: !NewWork(steps[k])
  }

  /**
    Once nothing new is started, whatever the order of the threads: at most `Work` steps follow, and when they
    cannot go on the session is freed and conserved.
   */
  lemma {:induction false} SessionDrains(steps: seq<Step>, more: seq<Step>, bound: nat)
    requires Run(steps + more) && StartsNothing(more) && Below(After(steps).cancellers, bound)
    ensures |more| + Work(After(steps + more), bound) <= Work(After(steps), bound)
    ensures Below(After(steps + more).cancellers, bound)
    ensures
      (forall step | Enabled(After(steps + more), step) :: NewWork(step)) ==>
        After(steps + more).life == Freed && Conserved(CountsOf(TraceOf(steps + more)))
    decreases |more|
  {
    hide Enabled, Next, Work, Conserved;
    if more == [] {
      assert steps + more == steps;
    } else {
      var init, step := more[..|more| - 1], more[|more| - 1];
      assert steps + more == steps + init + [step];
      RunSnoc(steps + init, step);
      SessionDrains(steps, init, bound);
      RunIsOwned(steps + init);
      StepUsesWork(After(steps + init), step, bound);
    }
    if forall step | Enabled(After(steps + more), step) :: NewWork(step) {
      if After(steps + more).life != Freed {
        var step := NeverStuck(steps + more);
      }
      SessionConserved(steps + more);
    }
  }

  lemma RunIsOwned(steps: seq<Step>)
    requires Run(steps)
    ensures After(steps).life == Alive <==> Owned(After(steps))
  {
    RunKeeps(steps);
  }

  /** From every state of every run the session can be freed. */
  lemma {:induction false} CanBeFreed(steps: seq<Step>, bound: nat) returns (more: seq<Step>)
    requires Run(steps) && Below(After(steps).cancellers, bound)
    ensures Run(steps + more) && StartsNothing(more) && After(steps + more).life == Freed
    decreases Work(After(steps), bound)
  {
    hide Enabled, Next, Work;
    if After(steps).life == Freed {
      more := [];
      assert steps + more == steps;
    } else {
      var step := NeverStuck(steps);
      RunIsOwned(steps);
      StepUsesWork(After(steps), step, bound);
      RunSnoc(steps, step);
      var rest := CanBeFreed(steps + [step], bound);
      more := [step] + rest;
      assert steps + more == steps + [step] + rest;
    }
  }

  /** The owner's next step; it is impossible only when the mutex is taken or the owner is gone. */
  function OwnerCanMove(s: State): (step: Step)
    ensures s.owner != Gone && (s.owner == EndWanted ==> s.mutex == None) ==> Enabled(s, step)
  {
    match s.owner
    case Starting => KeyDecoded
    case ShuttingDown => ShutdownReturns
    case Pending => BeginRestart
    case Restarting => RestartReturns
    case Unwinding => BeginRecovery
    case Recovering => RecoveryReturns
    case EndWanted => LockForEnd
    case EndLocked => if s.ended then EndFoundDone else BeginEnd
    case InEnd => EndReturns(true)
    case Releasing => OwnerReleases
    case _ => DropPlain
  }

  function CancellerCanMove(s: State, t: nat): (step: Step)
    requires t in s.cancellers
    ensures (s.cancellers[t] == Upgraded ==> s.mutex == None) ==> Enabled(s, step)
  {
    match s.cancellers[t]
    case Upgraded => LockForCancel(t)
    case Locked => if s.ended then CancelRefused(t) else BeginCancel(t)
    case InNative => CancelReturns(t)
    case Leaving(_) => CancellerReleases(t)
  }

  /**
    The session was ended once, or a second time exactly after a failed explicit end; every attempt returned,
    at most one succeeded, and a shutdown was answered.
   */
  predicate Conserved(n: Counts) {
    && 1 <= n(EndBegin(Explicit)) + n(EndBegin(Final)) <= 2
    && (n(EndBegin(Explicit)) + n(EndBegin(Final)) == 2 <==> Has(n, EndReturn(Explicit, false)))
    && n(EndBegin(Explicit)) == n(EndReturn(Explicit, true)) + n(EndReturn(Explicit, false))
    && n(EndBegin(Final)) == n(EndReturn(Final, true)) + n(EndReturn(Final, false))
    && n(EndReturn(Explicit, true)) + n(EndReturn(Final, true)) <= 1
    && Answered(n)
  }

  lemma FreedIsConserved(s: State, n: Counts)
    requires Inv(s, n) && EndsInOrder(n) && s.life == Freed
    ensures Conserved(n)
  {}

  /** Conservation: what holds of the native calls of every freed session. */
  lemma SessionConserved(steps: seq<Step>)
    requires Run(steps) && After(steps).life == Freed
    ensures Conserved(CountsOf(TraceOf(steps)))
  {
    RunKeeps(steps);
    OneSuccess(TraceOf(steps));
    FreedIsConserved(After(steps), CountsOf(TraceOf(steps)));
  }

  /** After an explicit end returned Ok, nobody is in RmCancelCurrentTask and nobody can enter it. */
  lemma NoCancelAfterEnd(steps: seq<Step>, t: nat)
    requires Run(steps) && Has(CountsOf(TraceOf(steps)), EndReturn(Explicit, true))
    ensures After(steps).ended
    ensures !At(After(steps), t, InNative) && !Enabled(After(steps), BeginCancel(t))
  {
    RunKeeps(steps);
    EndedKeepsOut(After(steps), CountsOf(TraceOf(steps)), t);
  }

  lemma EndedKeepsOut(s: State, n: Counts, t: nat)
    requires Inv(s, n) && Has(n, EndReturn(Explicit, true))
    ensures s.ended && !At(s, t, InNative) && !Enabled(s, BeginCancel(t))
  {}

  lemma {:induction false} TraceGrows(steps: seq<Step>, i: nat, e: Event)
    requires i <= |steps| && Has(CountsOf(TraceOf(steps[..i])), e)
    ensures Has(CountsOf(TraceOf(steps)), e)
    decreases |steps|
  {
    if i == |steps| {
      assert steps[..i] == steps;
    } else {
      var init := steps[..|steps| - 1];
      assert init[..i] == steps[..i];
      TraceGrows(init, i, e);
      Extends(TraceOf(init), Emits(After(init), steps[|steps| - 1]), TraceOf(steps));
    }
  }

  /** Thread `t` is in `cancel` and cannot reach the native call. */
  predicate Refusing(s: State, t: nat) {
    At(s, t, Upgraded) || At(s, t, Locked) || At(s, t, Leaving(true))
  }

  /** What a cancelling thread is told at the end of `cancel`: true for SessionEnded. */
  function CancelResult(s: State, step: Step): Option<(nat, bool)> {
    match step
    case UpgradeFails(t) => Some((t, true))
    case CancellerReleases(t) =>
      if t in s.cancellers && s.cancellers[t].Leaving? then Some((t, s.cancellers[t].refused)) else None
    case _ => None
  }

  /**
    A cancel that began at step `i` of a run, after an explicit end returned Ok, is told SessionEnded by the step
    `last` that ends it.
   */
  lemma RefusedAfterEnd(steps: seq<Step>, i: nat, t: nat, last: Step)
    requires Run(steps) && i <= |steps| && Has(CountsOf(TraceOf(steps[..i])), EndReturn(Explicit, true))
    requires if i < |steps| then steps[i] == Upgrade(t) else last == UpgradeFails(t)
    requires forall k | i < k < |steps| :: steps[k] != CancellerReleases(t)
    ensures
      var result := CancelResult(After(steps), last);
      result.Some? && result.value.0 == t ==> result.value.1
  {
    if i < |steps| {
      CannotReachNative(steps, i, t);
    }
  }

  /** Whoever is told SessionEnded without a native call was refused by a session that is over. */
  lemma RefusedOnlyWhenOver(steps: seq<Step>, last: Step, t: nat)
    requires Run(steps) && Enabled(After(steps), last) && CancelResult(After(steps), last) == Some((t, true))
    ensures After(steps).ended
  {
    RefusalsMeanEnded(steps, t);
    UnownedIsEnded(steps);
  }

  lemma UnownedIsEnded(steps: seq<Step>)
    requires Run(steps)
    ensures !Owned(After(steps)) ==> After(steps).ended
  {
    RunKeeps(steps);
    NotAliveIsEnded(After(steps), CountsOf(TraceOf(steps)));
  }

  lemma NotAliveIsEnded(s: State, n: Counts)
    requires Inv(s, n)
    ensures !Owned(s) ==> s.ended
  {}

  lemma {:induction false} RefusalsMeanEnded(steps: seq<Step>, t: nat)
    requires Run(steps)
    ensures At(After(steps), t, Leaving(true)) ==> After(steps).ended
  {
    if steps != [] {
      RefusalsMeanEnded(steps[..|steps| - 1], t);
      StepKeepsRefusals(After(steps[..|steps| - 1]), steps[|steps| - 1], t);
    }
  }

  lemma StepKeepsRefusals(s: State, step: Step, t: nat)
    requires (At(s, t, Leaving(true)) ==> s.ended) && Enabled(s, step)
    ensures At(Next(s, step), t, Leaving(true)) ==> Next(s, step).ended
  {}

  lemma {:induction false} CannotReachNative(steps: seq<Step>, i: nat, t: nat)
    requires Run(steps) && i < |steps| && steps[i] == Upgrade(t)
    requires Has(CountsOf(TraceOf(steps[..i])), EndReturn(Explicit, true))
    requires forall k | i < k < |steps| :: steps[k] != CancellerReleases(t)
    ensures Refusing(After(steps), t)
    decreases |steps|
  {
    var init, step := steps[..|steps| - 1], steps[|steps| - 1];
    if i < |steps| - 1 {
      assert init[..i] == steps[..i];
      CannotReachNative(init, i, t);
      TraceGrows(init, i, EndReturn(Explicit, true));
      NoCancelAfterEnd(init, t);
      StillRefusing(After(init), step, t);
    }
  }

  lemma StillRefusing(s: State, step: Step, t: nat)
    requires s.ended && Refusing(s, t) && Enabled(s, step) && step != CancellerReleases(t)
    ensures Refusing(Next(s, step), t)
  {}

  /** The early return of `end` is never taken: nothing but the owner's own end can set the flag before. */
  lemma EndNeverFoundDone(steps: seq<Step>)
    requires Run(steps)
    ensures !Enabled(After(steps), EndFoundDone)
  {
    RunKeeps(steps);
    NotEndedBefore(After(steps), CountsOf(TraceOf(steps)));
  }

  lemma NotEndedBefore(s: State, n: Counts)
    requires Inv(s, n)
    ensures !Enabled(s, EndFoundDone)
  {}

  function Logged(log: Option<Event>): seq<Event> {
    match log case None => [] case Some(e) => [e]
  }

  /** One more step of a run. */
  lemma RunSnoc(steps: seq<Step>, step: Step)
    ensures Run(steps + [step]) <==> Run(steps) && Enabled(After(steps), step)
    ensures After(steps + [step]) == Next(After(steps), step)
    ensures TraceOf(steps + [step]) == TraceOf(steps) + Logged(Emits(After(steps), step))
  {
    assert (steps + [step])[..|steps|] == steps;
  }
}
