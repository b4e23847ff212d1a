/**
  The dedicated worker of an asynchronous session: the commands, the typestate it keeps, and the loop that
  executes the commands in the order in which they were sent.
 */
module AsyncWorker {
  import opened NativeTypes
  import opened Wrappers
  import opened SessionTrace
  import SessionProtocol
  import opened Progress
  import opened Session

  datatype Command =
    | PrimaryRegister | PrimaryAffected | SetFilter | RemoveFilter | Filters
    | Shutdown | ShutdownWithProgress | EndPrimary
    | Restart | RestartWithProgress | LeaveStopped
    | CompletionAffected | EndCompletion
    | JoinedRegister | EndJoined

  datatype AsyncError = WrongState | Failure(error: SysError)

  datatype ShutdownReply = ToPending(outcome: OperationOutcome) | ToPrimary(error: AsyncError) | Refused(error: AsyncError)

  datatype RestartReply = ToCompletion(outcome: RecoveryOutcome) | BackToPending(error: AsyncError) | Rejected(error: AsyncError)

  /** What goes through the oneshot channel of a command. */
  datatype Reply =
    | Plain(result: Result<(), AsyncError>)
    | OfShutdown(shutdown: ShutdownReply)
    | OfRestart(restart: RestartReply)
    | OfRecovery(recovery: Result<RecoveryOutcome, AsyncError>)

  /** The typestate a worker keeps, without its native handle. */
  datatype Typestate =
    | PrimaryState
    | JoinedState
    | PendingState(shutdown: OperationOutcome)
    | CompletionState(outcome: RecoveryOutcome)
    | EmptyState

  /** What Windows and the callback slot do while one command runs. */
  datatype Answer = Answer(
    queries: nat, query: SysResult<()>, slotTaken: bool, samples: seq<U32>, codes: Codes)

  datatype Executed = Executed(state: Typestate, reply: Reply, calls: seq<Event>)

  /** The typestate that a command is for. */
  predicate Accepts(state: Typestate, command: Command) {
    match command
    case PrimaryRegister => state.PrimaryState?
    case PrimaryAffected => state.PrimaryState?
    case SetFilter => state.PrimaryState?
    case RemoveFilter => state.PrimaryState?
    case Filters => state.PrimaryState?
    case Shutdown => state.PrimaryState?
    case ShutdownWithProgress => state.PrimaryState?
    case EndPrimary => state.PrimaryState?
    case Restart => state.PendingState?
    case RestartWithProgress => state.PendingState?
    case LeaveStopped => state.PendingState?
    case CompletionAffected => state.CompletionState?
    case EndCompletion => state.CompletionState?
    case JoinedRegister => state.JoinedState?
    case EndJoined => state.JoinedState?
  }

  predicate Inquires(command: Command) {
    match command
    case PrimaryRegister => true
    case PrimaryAffected => true
    case SetFilter => true
    case RemoveFilter => true
    case Filters => true
    case CompletionAffected => true
    case JoinedRegister => true
    case _ => false
  }

  /** Each facade has the commands of its own methods, and an ended session none. */
  lemma CommandsOfFacades(c: Command)
    ensures Accepts(PrimaryState, c) <==>
              c == PrimaryRegister || c == PrimaryAffected || c == SetFilter || c == RemoveFilter || c == Filters
              || c == Command.Shutdown || c == Command.ShutdownWithProgress || c == EndPrimary
    ensures Accepts(JoinedState, c) <==> c == JoinedRegister || c == EndJoined
    ensures forall outcome :: Accepts(PendingState(outcome), c) <==>
              c == Command.Restart || c == Command.RestartWithProgress || c == Command.LeaveStopped
    ensures forall outcome :: Accepts(CompletionState(outcome), c) <==> c == CompletionAffected || c == Command.EndCompletion
    ensures !Accepts(EmptyState, c)
  {}

  function Lift<T>(r: SysResult<T>): Result<T, AsyncError> {
    match r case Ok(v) => Ok(v) case Err(e) => Err(Failure(e))
  }

  /** The reply of a command that arrives in the wrong typestate. */
  function WrongReply(command: Command): Reply {
    match command
    case Shutdown => OfShutdown(Refused(WrongState))
    case ShutdownWithProgress => OfShutdown(Refused(WrongState))
    case RestartWithProgress => OfRestart(Rejected(WrongState))
    case Restart => OfRecovery(Err(WrongState))
    case LeaveStopped => OfRecovery(Err(WrongState))
    case EndCompletion => OfRecovery(Err(WrongState))
    case _ => Plain(Err(WrongState))
  }

  const CONFLICT := Failure(SysError.CallbackInUse)

  function EndCalls(codes: Codes): seq<Event> {
    [EndBegin(Explicit), EndReturn(Explicit, codes.code == ERROR_SUCCESS)]
    + FinalCalls(codes.code == ERROR_SUCCESS, codes.final == ERROR_SUCCESS)
  }

  /** What one command does to the typestate and to Windows, and what it replies. */
  function Execute(command: Command, state: Typestate, a: Answer): Executed {
    if !Accepts(state, command) then Executed(state, WrongReply(command), [])
    else if Inquires(command) then Executed(state, Plain(Lift(a.query)), seq(a.queries, _ => Query))
    else
      match command
      case Shutdown =>
        var outcome := OutcomeOf(a.codes.code, false);
        Executed(PendingState(outcome), OfShutdown(ToPending(outcome)), [Event.Shutdown])
      case ShutdownWithProgress =>
        if a.slotTaken then Executed(state, OfShutdown(ToPrimary(CONFLICT)), [])
        else
          var outcome := OutcomeOf(a.codes.code, !Strict(a.samples));
          Executed(PendingState(outcome), OfShutdown(ToPending(outcome)), [Event.Shutdown])
      case Restart =>
        var outcome := RecoveryOutcome(state.shutdown, Some(OutcomeOf(a.codes.code, false)));
        Executed(CompletionState(outcome), OfRecovery(Ok(outcome)), [Event.Restart])
      case RestartWithProgress =>
        if a.slotTaken then Executed(state, OfRestart(BackToPending(CONFLICT)), [])
        else
          var outcome := RecoveryOutcome(state.shutdown, Some(OutcomeOf(a.codes.code, !Strict(a.samples))));
          Executed(CompletionState(outcome), OfRestart(ToCompletion(outcome)), [Event.Restart])
      case LeaveStopped =>
        var outcome := RecoveryOutcome(state.shutdown, None);
        Executed(CompletionState(outcome), OfRecovery(Ok(outcome)), [LeftStopped])
      case EndCompletion =>
        var r := if a.codes.code == ERROR_SUCCESS then Ok(state.outcome) else Err(Failure(Os(a.codes.code)));
        Executed(EmptyState, OfRecovery(r), EndCalls(a.codes))
      case _ =>
        Executed(EmptyState, Plain(Lift(Check(a.codes.code))), EndCalls(a.codes))
  }

  // ----- What a reply says -----

  predicate SaysWrongState(reply: Reply) {
    match reply
    case Plain(r) => r == Err(WrongState)
    case OfShutdown(r) => r == Refused(WrongState)
    case OfRestart(r) => r == Rejected(WrongState)
    case OfRecovery(r) => r == Err(WrongState)
  }

  /** The reply hands the reusable typestate back. */
  predicate HandsBack(reply: Reply) {
    (reply.OfShutdown? && reply.shutdown.ToPrimary?) || (reply.OfRestart? && reply.restart.BackToPending?)
  }

  predicate ReportsProgress(command: Command) {
    command.ShutdownWithProgress? || command.RestartWithProgress?
  }

  /** For the proofs about runs: a command for another typestate is told so, and touches neither the typestate nor Windows. */
  lemma WrongStateIsInert(command: Command, state: Typestate, a: Answer)
    ensures
      var e := Execute(command, state, a);
      && (SaysWrongState(e.reply) <==> !Accepts(state, command))
      && (SaysWrongState(e.reply) ==> e.state == state && e.calls == [])
  {
    if Accepts(state, command) && Inquires(command) {
      assert Lift(a.query) != Err(WrongState);
    }
  }

  /** For the proofs about runs: when one command hands the typestate back. */
  lemma HandedBackIffNotStarted(command: Command, state: Typestate, a: Answer)
    requires Accepts(state, command) && !Inquires(command)
    ensures
      var e := Execute(command, state, a);
      && (HandsBack(e.reply) <==> ReportsProgress(command) && a.slotTaken)
      && (HandsBack(e.reply) <==> e.state == state)
      && (HandsBack(e.reply) ==> e.calls == [])
      && (!HandsBack(e.reply) && ReportsProgress(command) ==> e.calls != [])
  {
  }

  predicate ShutsDown(command: Command) {
    command.Shutdown? || command.ShutdownWithProgress?
  }

  predicate Ends(command: Command) {
    command.EndPrimary? || command.EndCompletion? || command.EndJoined?
  }

  /**
    The typestate whose handle the client gets when the reply to a consuming command arrives; `facade` is the
    one that was consumed, with the outcome it had cached. None if the client gets no handle back.
   */
  function Resolved(facade: Typestate, command: Command, reply: Reply): Option<Typestate> {
    match reply
    case OfShutdown(ToPending(outcome)) => Some(PendingState(outcome))
    case OfShutdown(ToPrimary(_)) => Some(PrimaryState)
    case OfRestart(ToCompletion(outcome)) => Some(CompletionState(outcome))
    case OfRestart(BackToPending(_)) => Some(facade)
    case OfRecovery(Ok(outcome)) => if Ends(command) then None else Some(CompletionState(outcome))
    case _ => None
  }

  // ----- What a reply tells the client about Windows -----

  /** The outcome of an operation is what Windows and its samples made of it. */
  predicate Tells(outcome: OperationOutcome, command: Command, a: Answer) {
    && (outcome == Succeeded <==> a.codes.code == ERROR_SUCCESS && (ReportsProgress(command) ==> Strict(a.samples)))
    && (a.codes.code != ERROR_SUCCESS ==> outcome == Failed(Native(a.codes.code)))
    && (outcome == Failed(MalformedProgress) <==>
          a.codes.code == ERROR_SUCCESS && ReportsProgress(command) && !Strict(a.samples))
  }

  /** The outcomes that are retained behind a restart or its omission. */
  predicate Retains(outcome: RecoveryOutcome, shutdown: OperationOutcome, command: Command, a: Answer) {
    && outcome.shutdown == shutdown
    && (outcome.restart.Some? <==> !command.LeaveStopped?)
    && (outcome.restart.Some? ==> Tells(outcome.restart.value, command, a))
  }

  predicate ReplyTells(command: Command, state: Typestate, a: Answer, reply: Reply)
    requires Accepts(state, command)
  {
    if Inquires(command) then
      reply == Plain(match a.query case Ok(done) => Ok(done) case Err(e) => Err(Failure(e)))
    else if ReportsProgress(command) && a.slotTaken then
      || reply == OfShutdown(ToPrimary(Failure(SysError.CallbackInUse)))
      || reply == OfRestart(BackToPending(Failure(SysError.CallbackInUse)))
    else match command
      case Shutdown => reply.OfShutdown? && reply.shutdown.ToPending? && Tells(reply.shutdown.outcome, command, a)
      case ShutdownWithProgress =>
        reply.OfShutdown? && reply.shutdown.ToPending? && Tells(reply.shutdown.outcome, command, a)
      case RestartWithProgress =>
        reply.OfRestart? && reply.restart.ToCompletion? && Retains(reply.restart.outcome, state.shutdown, command, a)
      case Restart =>
        reply.OfRecovery? && reply.recovery.Ok? && Retains(reply.recovery.value, state.shutdown, command, a)
      case LeaveStopped =>
        reply.OfRecovery? && reply.recovery.Ok? && Retains(reply.recovery.value, state.shutdown, command, a)
      case EndCompletion =>
        reply == OfRecovery(
          if a.codes.code == ERROR_SUCCESS then Ok(state.outcome) else Err(Failure(Os(a.codes.code))))
      case _ =>
        reply == Plain(if a.codes.code == ERROR_SUCCESS then Ok(()) else Err(Failure(Os(a.codes.code))))
  }

  /** For the proofs about runs: executing a command replies what Windows did. */
  lemma ExecuteTells(command: Command, state: Typestate, a: Answer)
    requires Accepts(state, command)
    ensures ReplyTells(command, state, a, Execute(command, state, a).reply)
  {}

  // ----- Executing a queue -----

  datatype History = History(state: Typestate, replies: seq<Reply>, calls: seq<Event>)

  /** The commands, executed in order. */
  function ExecuteAll(commands: seq<Command>, answers: seq<Answer>, state: Typestate): (h: History)
    requires |commands| == |answers|
    ensures |h.replies| == |commands|
  {
    if commands == [] then History(state, [], [])
    else
      var k := |commands| - 1;
      var before := ExecuteAll(commands[..k], answers[..k], state);
      var e := Execute(commands[k], before.state, answers[k]);
      History(e.state, before.replies + [e.reply], before.calls + e.calls)
  }

  /** The calls of dropping the typestate that is left when the loop ends. */
  function DropCalls(state: Typestate, codes: Codes): seq<Event> {
    match state
    case PendingState(_) => [Event.Restart] + FinalCalls(false, codes.final == ERROR_SUCCESS)
    case EmptyState => []
    case _ => FinalCalls(false, codes.final == ERROR_SUCCESS)
  }

  // ----- The worker's own objects -----

  datatype WorkerState =
    | Primary(session: RestartSession)
    | Joined(joined: JoinedSession)
    | Pending(pending: RestartPending)
    | Completion(completion: RecoveryCompletion)
    | Empty

  /** The progress closure of a worker only stores the sample for the receivers; it does not panic. */
  const FORWARD: Closure := _ => false

  class Worker {
    var state: WorkerState
    const handle: SessionHandle

    constructor (session: RestartSession)
      ensures handle == session.core && state == Primary(session)
    {
      handle, state := session.core, Primary(session);
    }

    constructor OfJoined(session: JoinedSession)
      ensures handle == session.core && state == Joined(session)
    {
      handle, state := session.core, Joined(session);
    }

    ghost function Repr(): set<object>
      reads this
    {
      {this, handle} + if state.Pending? then {state.pending} else {}
    }

    ghost predicate Valid()
      reads this, Repr()
    {
      handle.Valid() &&
      match state
      case Primary(session) => session.core == handle && handle.stage == SessionProtocol.Owner.Primary
      case Joined(joined) => joined.core == handle && handle.stage == SessionProtocol.Owner.Joined
      case Pending(pending) => pending.Armed(handle)
      case Completion(completion) => completion.core == handle && handle.stage == SessionProtocol.Owner.Completion
      case Empty => handle.stage == SessionProtocol.Gone
    }

    ghost function Abstract(): Typestate
      requires Valid()
      reads this, Repr()
    {
      match state
      case Primary(_) => PrimaryState
      case Joined(_) => JoinedState
      case Pending(pending) => PendingState(pending.shutdown.value)
      case Completion(completion) => CompletionState(completion.outcome)
      case Empty => EmptyState
    }

    /** A command that only asks leaves the typestate where it is. */
    method Ask(accepted: bool, a: Answer) returns (result: Result<(), AsyncError>)
      requires Valid() && (accepted ==> !state.Pending? && !state.Empty?)
      modifies handle
      ensures Valid() && Abstract() == old(Abstract())
      ensures result == if accepted then Lift(a.query) else Err(WrongState)
      ensures handle.calls == old(handle.calls) + (if accepted then seq(a.queries, _ => Query) else [])
    {
      hide Recorded;
      if accepted {
        handle.Inquire(a.queries);
        result := Lift(a.query);
      } else {
        result := Err(WrongState);
      }
    }

    method ExecuteShutdown(a: Answer) returns (reply: ShutdownReply)
      requires Valid()
      modifies Repr()
      ensures Valid() && fresh(Repr() - old(Repr()))
      ensures
        var e := Execute(Command.Shutdown, old(Abstract()), a);
        Abstract() == e.state && OfShutdown(reply) == e.reply && handle.calls == old(handle.calls) + e.calls
    {
      hide Recorded;
      var previous := state;
      state := Empty;
      if previous.Primary? {
        var pending := ShutdownWithOptions(previous.session, a.codes.code);
        state := Pending(pending);
        reply := ToPending(pending.shutdown.value);
      } else {
        state := previous;
        reply := Refused(WrongState);
      }
    }

    method ExecuteShutdownWithProgress(a: Answer) returns (reply: ShutdownReply)
      requires Valid()
      modifies Repr()
      ensures Valid() && fresh(Repr() - old(Repr()))
      ensures
        var e := Execute(Command.ShutdownWithProgress, old(Abstract()), a);
        Abstract() == e.state && OfShutdown(reply) == e.reply && handle.calls == old(handle.calls) + e.calls
    {
      hide Recorded;
      var previous := state;
      state := Empty;
      if previous.Primary? {
        var callback := new ProgressCallback(FORWARD);
        var r := Session.ShutdownWithProgress(previous.session, a.slotTaken, callback, a.samples, a.codes);
        match r {
          case Moved(pending) =>
            state := Pending(pending);
            reply := ToPending(pending.shutdown.value);
          case Unmoved(session) =>
            state := WorkerState.Primary(session);
            reply := ToPrimary(CONFLICT);
          case PanicResumed =>
        }
      } else {
        state := previous;
        reply := Refused(WrongState);
      }
    }

    method ExecuteRestart(a: Answer) returns (reply: Result<RecoveryOutcome, AsyncError>)
      requires Valid()
      modifies Repr()
      ensures Valid() && fresh(Repr() - old(Repr()))
      ensures
        var e := Execute(Command.Restart, old(Abstract()), a);
        Abstract() == e.state && OfRecovery(reply) == e.reply && handle.calls == old(handle.calls) + e.calls
    {
      hide Recorded;
      var previous := state;
      state := Empty;
      if previous.Pending? {
        var completion := previous.pending.Restart(a.codes.code, handle);
        state := Completion(completion);
        reply := Ok(completion.outcome);
      } else {
        state := previous;
        reply := Err(WrongState);
      }
    }

    method ExecuteRestartWithProgress(a: Answer) returns (reply: RestartReply)
      requires Valid()
      modifies Repr()
      ensures Valid() && fresh(Repr() - old(Repr()))
      ensures
        var e := Execute(Command.RestartWithProgress, old(Abstract()), a);
        Abstract() == e.state && OfRestart(reply) == e.reply && handle.calls == old(handle.calls) + e.calls
    {
      hide Recorded;
      var previous := state;
      state := Empty;
      if previous.Pending? {
        var callback := new ProgressCallback(FORWARD);
        var r := previous.pending.RestartWithProgress(a.slotTaken, callback, a.samples, a.codes, handle);
        match r {
          case Moved(completion) =>
            state := Completion(completion);
            reply := ToCompletion(completion.outcome);
          case Unmoved(pending) =>
            state := Pending(pending);
            reply := BackToPending(CONFLICT);
          case PanicResumed =>
        }
      } else {
        state := previous;
        reply := Rejected(WrongState);
      }
    }

    method ExecuteLeaveStopped() returns (reply: Result<RecoveryOutcome, AsyncError>)
      requires Valid()
      modifies Repr()
      ensures Valid() && fresh(Repr() - old(Repr()))
      ensures
        forall a ::
          var e := Execute(Command.LeaveStopped, old(Abstract()), a);
          Abstract() == e.state && OfRecovery(reply) == e.reply && handle.calls == old(handle.calls) + e.calls
    {
      hide Recorded;
      var previous := state;
      state := Empty;
      if previous.Pending? {
        var completion := previous.pending.LeaveStopped(handle);
        state := Completion(completion);
        reply := Ok(completion.outcome);
      } else {
        state := previous;
        reply := Err(WrongState);
      }
    }

    method ExecuteEndCompletion(a: Answer) returns (reply: Result<RecoveryOutcome, AsyncError>)
      requires Valid()
      modifies Repr()
      ensures Valid() && fresh(Repr() - old(Repr()))
      ensures
        var e := Execute(Command.EndCompletion, old(Abstract()), a);
        Abstract() == e.state && OfRecovery(reply) == e.reply && handle.calls == old(handle.calls) + e.calls
    {
      hide Recorded;
      var previous := state;
      state := Empty;
      if previous.Completion? {
        var r := Session.EndCompletion(previous.completion, a.codes);
        assert handle.calls == old(handle.calls) + EndCalls(a.codes);
        reply := Lift(r);
      } else {
        state := previous;
        reply := Err(WrongState);
      }
    }

    /** EndPrimary and EndJoined. */
    method ExecuteEnd(command: Command, a: Answer) returns (reply: Result<(), AsyncError>)
      requires Valid() && (command.EndPrimary? || command.EndJoined?)
      modifies Repr()
      ensures Valid() && fresh(Repr() - old(Repr()))
      ensures
        var e := Execute(command, old(Abstract()), a);
        Abstract() == e.state && Plain(reply) == e.reply && handle.calls == old(handle.calls) + e.calls
    {
      hide Recorded;
      var previous := state;
      state := Empty;
      if (previous.Primary? && command.EndPrimary?) || (previous.Joined? && command.EndJoined?) {
        var r := EndSession(if previous.Primary? then previous.session.core else previous.joined.core, a.codes);
        assert handle.calls == old(handle.calls) + EndCalls(a.codes);
        reply := Lift(r);
      } else {
        state := previous;
        reply := Err(WrongState);
      }
    }

    /** One command, executed against the typestate in place. */
    method ExecuteCommand(command: Command, a: Answer) returns (reply: Reply)
      requires Valid()
      modifies Repr()
      ensures Valid() && fresh(Repr() - old(Repr()))
      ensures
        var e := Execute(command, old(Abstract()), a);
        Abstract() == e.state && reply == e.reply && handle.calls == old(handle.calls) + e.calls
    {
      hide Recorded;
      match command {
        case Shutdown =>
          var r := ExecuteShutdown(a);
          reply := OfShutdown(r);
        case ShutdownWithProgress =>
          var r := ExecuteShutdownWithProgress(a);
          reply := OfShutdown(r);
        case Restart =>
          var r := ExecuteRestart(a);
          reply := OfRecovery(r);
        case RestartWithProgress =>
          var r := ExecuteRestartWithProgress(a);
          reply := OfRestart(r);
        case LeaveStopped =>
          var r := ExecuteLeaveStopped();
          assert Execute(command, old(Abstract()), a).reply == OfRecovery(r);
          reply := OfRecovery(r);
        case EndCompletion =>
          var r := ExecuteEndCompletion(a);
          reply := OfRecovery(r);
        case EndPrimary =>
          var r := ExecuteEnd(command, a);
          reply := Plain(r);
        case EndJoined =>
          var r := ExecuteEnd(command, a);
          reply := Plain(r);
        case CompletionAffected =>
          var r := Ask(state.Completion?, a);
          reply := Plain(r);
        case JoinedRegister =>
          var r := Ask(state.Joined?, a);
          reply := Plain(r);
        case _ =>
          var r := Ask(state.Primary?, a);
          reply := Plain(r);
      }
    }

    /** The typestate goes out of scope at the end of the loop. */
    method DropState(codes: Codes)
      requires Valid()
      modifies Repr()
      ensures Valid() && state == Empty
      ensures handle.calls == old(handle.calls) + DropCalls(old(Abstract()), codes)
    {
      hide Recorded;
      if state.Pending? {
        state.pending.Drop(codes);
      } else if !state.Empty? {
        DropIdle(handle, codes);
      }
      state := Empty;
    }

    /** The loop: every command until the last sender is gone, then the typestate is dropped. */
    method RunWorker(commands: seq<Command>, answers: seq<Answer>, codes: Codes) returns (replies: seq<Reply>)
      requires Valid() && |commands| == |answers|
      modifies Repr()
      ensures Valid() && state == Empty
      ensures
        var h := ExecuteAll(commands, answers, old(Abstract()));
        && replies == h.replies
        && handle.calls == old(handle.calls) + h.calls + DropCalls(h.state, codes)
      ensures Disciplined(handle.calls) && SessionProtocol.Conserved(CountsOf(handle.calls))
    {
      hide Recorded, Execute, Disciplined, SessionProtocol.Conserved, DropCalls;
      replies := [];
      ghost var h := ExecuteAll([], [], Abstract());
      for i := 0 to |commands|
        invariant Valid() && fresh(Repr() - old(Repr()))
        invariant h == ExecuteAll(commands[..i], answers[..i], old(Abstract()))
        invariant Abstract() == h.state && replies == h.replies && handle.calls == old(handle.calls) + h.calls
      {
        assert commands[..i + 1][..i] == commands[..i] && answers[..i + 1][..i] == answers[..i];
        var reply := ExecuteCommand(commands[i], answers[i]);
        replies := replies + [reply];
        h := ExecuteAll(commands[..i + 1], answers[..i + 1], old(Abstract()));
      }
      assert commands[..|commands|] == commands && answers[..|answers|] == answers;
      DropState(codes);
      CallsAreDisciplined(handle);
    }
  }

  // ----- The client's futures -----

  /** What a oneshot receiver gives: nothing yet, a reply, or the news that the sender is gone. */
  datatype Received<R> = NotYet | Arrived(reply: R) | Closed

  datatype Poll<T> = PollPending | PollReady(value: T)

  datatype AsyncFailure = OfWorker(error: AsyncError) | WorkerUnavailable

  /** AsyncOperationError: the reusable typestate is there only if native work did not begin. */
  datatype Ready<S, T> = Next(next: T) | NotDone(state: Option<S>, error: AsyncFailure)

  /** What a facade's typestate holds besides the channel to its worker. */
  datatype PrimaryFacade<W, K, C> = PrimaryFacade(worker: W, key: K, cancellation: C)

  datatype PendingFacade<W> = PendingFacade(worker: W, shutdown: OperationOutcome)

  datatype CompletionFacade<W> = CompletionFacade(worker: W, outcome: RecoveryOutcome)

  /** The typestate of the handle in a poll's result. */
  function ShutdownHandle<W, K, C>(r: Poll<Ready<PrimaryFacade<W, K, C>, PendingFacade<W>>>): Option<Typestate> {
    match r
    case PollReady(Next(pending)) => Some(PendingState(pending.shutdown))
    case PollReady(NotDone(Some(_), _)) => Some(PrimaryState)
    case _ => None
  }

  function RestartHandle<W>(r: Poll<Result<CompletionFacade<W>, AsyncFailure>>): Option<Typestate> {
    match r
    case PollReady(Ok(completion)) => Some(CompletionState(completion.outcome))
    case _ => None
  }

  function ProgressHandle<W>(r: Poll<Ready<PendingFacade<W>, CompletionFacade<W>>>): Option<Typestate> {
    match r
    case PollReady(Next(completion)) => Some(CompletionState(completion.outcome))
    case PollReady(NotDone(Some(pending), _)) => Some(PendingState(pending.shutdown))
    case _ => None
  }

  class ShutdownFuture<W, K, C> {
    var worker: Option<W>
    var key: Option<K>
    var cancellation: Option<C>
    var cancelOnDrop: bool
    ghost const facade: PrimaryFacade<W, K, C> // what the future was made from
    ghost var resolved: bool                   // a poll was ready

    ghost predicate Valid()
      reads this
    {
      && cancelOnDrop == !resolved
      && (!resolved ==>
            worker == Some(facade.worker) && key == Some(facade.key) && cancellation == Some(facade.cancellation))
    }

    constructor (session: PrimaryFacade<W, K, C>)
      ensures Valid() && !resolved && facade == session
    {
      worker, key, cancellation := Some(session.worker), Some(session.key), Some(session.cancellation);
      cancelOnDrop := true;
      facade, resolved := session, false;
    }

    /** The first ready poll gives the handle of the typestate that the reply resolves to, on the same worker. */
    method PollReply(received: Received<ShutdownReply>)
      returns (r: Poll<Ready<PrimaryFacade<W, K, C>, PendingFacade<W>>>)
      requires Valid() && !resolved
      modifies this
      ensures Valid() && resolved == r.PollReady? == (received != NotYet)
      ensures
        received.Arrived? ==>
          forall command | ShutsDown(command) ::
            ShutdownHandle(r) == Resolved(PrimaryState, command, OfShutdown(received.reply))
      ensures r.PollReady? && r.value.Next? ==> r.value.next.worker == facade.worker
      ensures r.PollReady? && r.value.NotDone? && r.value.state.Some? ==> r.value.state.value == facade
      ensures
        received.Arrived? && !received.reply.ToPending? ==>
          r.value.NotDone? && r.value.error == OfWorker(received.reply.error)
      ensures received == Closed ==> r.value == NotDone(None, WorkerUnavailable)
    {
      match received {
        case NotYet =>
          return PollPending;
        case Arrived(ToPending(outcome)) =>
          cancelOnDrop := false;
          r := PollReady(Next(PendingFacade(worker.value, outcome)));
          worker := None;
        case Arrived(ToPrimary(error)) =>
          cancelOnDrop := false;
          r := PollReady(NotDone(Some(PrimaryFacade(worker.value, key.value, cancellation.value)), OfWorker(error)));
          worker, key, cancellation := None, None, None;
        case Arrived(Refused(error)) =>
          cancelOnDrop := false;
          r := PollReady(NotDone(None, OfWorker(error)));
        case Closed =>
          cancelOnDrop := false;
          r := PollReady(NotDone(None, WorkerUnavailable));
      }
      resolved := true;
    }

    /** Dropping asks for cancellation exactly before the first ready poll. */
    method Drop() returns (cancel: Option<C>)
      requires Valid()
      ensures cancel == if resolved then None else Some(facade.cancellation)
    {
      cancel := if cancelOnDrop && cancellation.Some? then cancellation else None;
    }
  }

  class RestartFuture<W> {
    var worker: Option<W>

    constructor (worker: W)
      ensures this.worker == Some(worker)
    {
      this.worker := Some(worker);
    }

    /** A ready poll gives the handle that the reply resolves to, whatever the consumed facade had cached. */
    method PollReply(received: Received<Result<RecoveryOutcome, AsyncError>>)
      returns (r: Poll<Result<CompletionFacade<W>, AsyncFailure>>)
      requires worker.Some?
      modifies this
      ensures r.PollReady? == (received != NotYet)
      ensures
        received.Arrived? ==>
          forall facade :: RestartHandle(r) == Resolved(facade, Command.Restart, OfRecovery(received.reply))
      ensures RestartHandle(r).Some? ==> r.value.value.worker == old(worker.value)
      ensures RestartHandle(r) == None ==> worker == old(worker)
      ensures received.Arrived? && received.reply.Err? ==> r.value == Err(OfWorker(received.reply.error))
      ensures received == Closed ==> r.value == Err(WorkerUnavailable)
    {
      match received {
        case NotYet => r := PollPending;
        case Arrived(Ok(outcome)) =>
          r := PollReady(Ok(CompletionFacade(worker.value, outcome)));
          worker := None;
        case Arrived(Err(error)) => r := PollReady(Err(OfWorker(error)));
        case Closed => r := PollReady(Err(WorkerUnavailable));
      }
    }
  }

  class RestartWithProgressFuture<W> {
    var worker: Option<W>
    var shutdown: Option<OperationOutcome>

    constructor (pending: PendingFacade<W>)
      ensures Holds(pending)
    {
      worker, shutdown := Some(pending.worker), Some(pending.shutdown);
    }

    ghost predicate Holds(pending: PendingFacade<W>)
      reads this
    {
      worker == Some(pending.worker) && shutdown == Some(pending.shutdown)
    }

    /** A ready poll gives the handle that the reply resolves to, with the outcome the consumed facade had cached. */
    method PollReply(received: Received<RestartReply>, ghost pending: PendingFacade<W>)
      returns (r: Poll<Ready<PendingFacade<W>, CompletionFacade<W>>>)
      requires Holds(pending)
      modifies this
      ensures r.PollReady? == (received != NotYet)
      ensures
        received.Arrived? ==>
          var facade := PendingState(pending.shutdown);
          ProgressHandle(r) == Resolved(facade, Command.RestartWithProgress, OfRestart(received.reply))
      ensures r.PollReady? && r.value.Next? ==> r.value.next.worker == pending.worker
      ensures r.PollReady? && r.value.NotDone? && r.value.state.Some? ==> r.value.state.value == pending
      ensures
        received.Arrived? && !received.reply.ToCompletion? ==>
          r.value.NotDone? && r.value.error == OfWorker(received.reply.error)
      ensures ProgressHandle(r) == None ==> Holds(pending)
      ensures received == Closed ==> r.value == NotDone(None, WorkerUnavailable)
    {
      match received {
        case NotYet => r := PollPending;
        case Arrived(ToCompletion(outcome)) =>
          r := PollReady(Next(CompletionFacade(worker.value, outcome)));
          worker := None;
        case Arrived(BackToPending(error)) =>
          r := PollReady(NotDone(Some(PendingFacade(worker.value, shutdown.value)), OfWorker(error)));
          worker, shutdown := None, None;
        case Arrived(Rejected(error)) => r := PollReady(NotDone(None, OfWorker(error)));
        case Closed => r := PollReady(NotDone(None, WorkerUnavailable));
      }
    }
  }
}
