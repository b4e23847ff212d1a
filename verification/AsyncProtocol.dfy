/**
  The asynchronous facade as a whole: the client with its typestate handles and futures, the FIFO channel,
  the worker thread, and the native session below it with any number of cancelling threads.

  A step is one atomic action of the client, of the worker, or of the session; the native part of a command
  is a number of steps of SessionProtocol, so that cancellation and futures dropped half-way interleave.
 */
module AsyncProtocol {
  import opened Wrappers
  import opened SessionTrace
  import opened AsyncWorker
  import Progress
  import opened Session
  import opened Workload
  import P = SessionProtocol

  /** A command and the oneshot channel for its reply. */
  datatype Ticket = Ticket(id: nat, command: Command)

  datatype Client =
    | Connecting                                             // `new` or `join` is awaited
    | Holding(facade: Typestate)                             // a handle, with the outcome it caches
    | Asking(facade: Typestate, id: nat)                     // a borrowing method is awaited
    | Awaiting(facade: Typestate, command: Command, id: nat) // a consuming future
    | Cancelling(thread: nat, begun: bool)                   // a shutdown future is being dropped
    | Gone                                                   // the command sender is dropped

  datatype Thread =
    | Opening(joined: bool)
    | Idle(state: Typestate)
    | Busy(ticket: Ticket, state: Typestate)
    | Leaving // the loop has ended or nobody waits for the session; the typestate is dropped
    | Exited

  datatype State = State(
    client: Client, queue: seq<Ticket>, worker: Thread, init: Option<Option<Typestate>>, session: P.State,
    sent: seq<Command>, executed: seq<Command>, replies: map<nat, Reply>,
    endOk: bool,       // what the last RmEndSession of a command returned
    calls: seq<Event>) // the native calls of the command that is executed, or was last

  datatype Step =
    | SendInit | InitFails
    | Take | Complete(answer: Answer)
    | LoopEnds | Exit
    | Native(step: P.Step)
    | Connect | ConnectFails | Abandon
    | Ask(command: Command) | Answered | DropCall
    | Consume(command: Command) | Ready | DropFuture(thread: nat) | CancelUpgrades | CancelDone
    | DropHandle

  /** RmStartSession or RmJoinSession has just succeeded on the worker thread. */
  function Initial(joined: bool): State {
    State(Connecting, [], Opening(joined), None, P.INITIAL, [], [], map[], false, [])
  }

  function Opened(joined: bool): Typestate {
    if joined then JoinedState else PrimaryState
  }

  /** The stage of the native session when the worker keeps this typestate between two commands. */
  function StageOf(state: Typestate): P.Owner {
    match state
    case PrimaryState => P.Primary
    case JoinedState => P.Joined
    case PendingState(_) => P.Pending
    case CompletionState(_) => P.Completion
    case EmptyState => P.Gone
  }

  predicate Restarts(command: Command) {
    command.Restart? || command.RestartWithProgress?
  }

  /** The native steps that executing a command consists of. */
  predicate Does(command: Command, step: P.Step) {
    if Inquires(command) then step.Queries?
    else if ShutsDown(command) then step.BeginShutdown? || step.ShutdownReturns?
    else if Restarts(command) then step.BeginRestart? || step.RestartReturns?
    else if Ends(command) then
      step.WantEnd? || step.LockForEnd? || step.EndFoundDone? || step.BeginEnd? || step.EndReturns?
      || step.OwnerReleases?
    else step.LeaveStopped?
  }

  /** Where the native session is when the command is over. */
  function StageAfter(command: Command, state: Typestate, a: Answer): P.Owner {
    if !Accepts(state, command) || Inquires(command) then StageOf(state)
    else if ReportsProgress(command) && a.slotTaken then StageOf(state)
    else if ShutsDown(command) then P.Pending
    else if Ends(command) then P.Gone
    else P.Completion
  }

  /**
    The call that a step makes for the command that is executed. The end that follows the last strong reference
    is not among them: any thread may be the one that drops it.
   */
  function CommandCall(session: P.State, step: P.Step): Option<Event> {
    if P.CancelStep(step) || step.OwnerReleases? || step.FinalReturns? then None else P.Emits(session, step)
  }

  predicate WorkerMay(worker: Thread, step: P.Step) {
    match worker
    case Opening(joined) =>
      if joined then step.KeyJoined? else step.KeyDecoded? || step.KeyRejected? || step.OwnerReleases?
    case Busy(ticket, state) => Accepts(state, ticket.command) && Does(ticket.command, step)
    case Leaving =>
      step.DropPlain? || step.DropPending? || step.BeginRecovery? || step.RecoveryReturns? || step.OwnerReleases?
    case _ => false
  }

  predicate Enabled(s: State, step: Step) {
    match step
    case SendInit => s.worker.Opening? && s.session.owner == StageOf(Opened(s.worker.joined))
    case InitFails => s.worker.Opening? && s.session.owner == P.Gone
    case Take => s.worker.Idle? && s.queue != []
    case Complete(a) =>
      && s.worker.Busy?
      && s.session.owner == StageAfter(s.worker.ticket.command, s.worker.state, a)
      && (Ends(s.worker.ticket.command) ==> s.endOk == (a.codes.code == ERROR_SUCCESS))
      && (Inquires(s.worker.ticket.command) ==> a.queries == |s.calls|)
    case LoopEnds => s.worker.Idle? && s.queue == [] && s.client == Gone
    case Exit => s.worker == Leaving && s.session.owner == P.Gone
    case Native(p) =>
      P.Enabled(s.session, p) && (P.CancelStep(p) || p.FinalReturns? || WorkerMay(s.worker, p))
    case Connect => s.client == Connecting && s.init.Some? && s.init.value.Some?
    case ConnectFails => s.client == Connecting && s.init == Some(None)
    case Abandon => s.client == Connecting
    case Ask(c) => s.client.Holding? && Accepts(s.client.facade, c) && Inquires(c)
    case Answered => s.client.Asking? && s.client.id in s.replies
    case DropCall => s.client.Asking?
    case Consume(c) => s.client.Holding? && Accepts(s.client.facade, c) && !Inquires(c)
    case Ready => s.client.Awaiting? && s.client.id in s.replies
    case DropFuture(_) => s.client.Awaiting?
    case CancelUpgrades => s.client.Cancelling? && !s.client.begun && s.client.thread !in s.session.cancellers
    case CancelDone => s.client.Cancelling? && s.client.begun && s.client.thread !in s.session.cancellers
    case DropHandle => s.client.Holding?
  }

  function Sent(s: State, c: Command, client: Client): State {
    s.(client := client, queue := s.queue + [Ticket(|s.sent|, c)], sent := s.sent + [c])
  }

  /** The client after a consuming future was ready with this reply. */
  function Polled(facade: Typestate, command: Command, reply: Reply): Client {
    match Resolved(facade, command, reply)
    case None => Gone
    case Some(state) => Holding(state)
  }

  /** The first thing that a shutdown future which is being dropped does. */
  function Upgrading(s: State): P.Step
    requires s.client.Cancelling?
  {
    if P.Owned(s.session) then P.Upgrade(s.client.thread) else P.UpgradeFails(s.client.thread)
  }

  function Next(s: State, step: Step): State
    requires Enabled(s, step)
  {
    match step
    case SendInit =>
      if s.client == Connecting then
        s.(worker := Idle(Opened(s.worker.joined)), init := Some(Some(Opened(s.worker.joined))))
      else s.(worker := Leaving)
    case InitFails => s.(worker := Exited, init := Some(None))
    case Take => s.(worker := Busy(s.queue[0], s.worker.state), queue := s.queue[1..], calls := [])
    case Complete(a) =>
      var e := Execute(s.worker.ticket.command, s.worker.state, a);
      s.(worker := Idle(e.state), executed := s.executed + [s.worker.ticket.command],
         replies := s.replies[s.worker.ticket.id := e.reply])
    case LoopEnds => s.(worker := Leaving)
    case Exit => s.(worker := Exited)
    case Native(p) =>
      s.(session := P.Next(s.session, p), endOk := if p.EndReturns? then p.ok else s.endOk,
         calls := s.calls + P.Logged(CommandCall(s.session, p)))
    case Connect => s.(client := Holding(s.init.value.value))
    case ConnectFails => s.(client := Gone)
    case Abandon => s.(client := Gone)
    case Ask(c) => Sent(s, c, Asking(s.client.facade, |s.sent|))
    case Answered => s.(client := Holding(s.client.facade))
    case DropCall => s.(client := Holding(s.client.facade))
    case Consume(c) => Sent(s, c, Awaiting(s.client.facade, c, |s.sent|))
    case Ready => s.(client := Polled(s.client.facade, s.client.command, s.replies[s.client.id]))
    case DropFuture(t) => s.(client := if ShutsDown(s.client.command) then Cancelling(t, false) else Gone)
    case CancelUpgrades =>
      s.(session := P.Next(s.session, Upgrading(s)), client := Cancelling(s.client.thread, true))
    case CancelDone => s.(client := Gone)
    case DropHandle => s.(client := Gone)
  }

  ghost predicate Run(joined: bool, steps: seq<Step>)
    decreases |steps|, 0
  {
    steps == [] ||
    var init := steps[..|steps| - 1];
    Run(joined, init) && Enabled(After(joined, init), steps[|steps| - 1])
  }

  ghost function After(joined: bool, steps: seq<Step>): State
    requires Run(joined, steps)
    decreases |steps|, 1
  {
    if steps == [] then Initial(joined)
    else Next(After(joined, steps[..|steps| - 1]), steps[|steps| - 1])
  }

  // ----- The native session below is a run of its own protocol -----

  function NativeStep(s: State, step: Step): seq<P.Step> {
    match step
    case Native(p) => [p]
    case CancelUpgrades => if s.client.Cancelling? then [Upgrading(s)] else []
    case _ => []
  }

  ghost function NativeSteps(joined: bool, steps: seq<Step>): seq<P.Step>
    requires Run(joined, steps)
  {
    if steps == [] then []
    else
      var init := steps[..|steps| - 1];
      NativeSteps(joined, init) + NativeStep(After(joined, init), steps[|steps| - 1])
  }

  lemma {:induction false} SessionRuns(joined: bool, steps: seq<Step>)
    requires Run(joined, steps)
    ensures P.Run(NativeSteps(joined, steps))
    ensures P.After(NativeSteps(joined, steps)) == After(joined, steps).session
  {
    if steps != [] {
      var init, step := steps[..|steps| - 1], steps[|steps| - 1];
      SessionRuns(joined, init);
      var s := After(joined, init);
      var before := NativeSteps(joined, init);
      SessionStep(s, step, before);
    }
  }

  lemma SessionStep(s: State, step: Step, before: seq<P.Step>)
    requires Enabled(s, step) && P.Run(before) && P.After(before) == s.session
    ensures P.Run(before + NativeStep(s, step)) && P.After(before + NativeStep(s, step)) == Next(s, step).session
  {
    hide P.Run, P.After;
    var native := NativeStep(s, step);
    if native == [] {
      assert before + native == before;
    } else {
      P.RunSnoc(before, native[0]);
    }
  }

  // ----- The invariant -----

  /** The commands that are sent and not yet executed. */
  function Pending(s: State): seq<Ticket> {
    (if s.worker.Busy? then [s.worker.ticket] else []) + s.queue
  }

  predicate Serving(s: State) {
    s.worker.Idle? || s.worker.Busy?
  }

  /** The typestate before the pending commands. */
  function Base(s: State): Typestate
    requires Serving(s)
  {
    s.worker.state
  }

  /** FIFO: what was sent is what was executed followed by what is pending; each executed one has its reply. */
  ghost predicate InOrder(sent: seq<Command>, executed: seq<Command>, pending: seq<Ticket>, replies: map<nat, Reply>) {
    && |sent| == |executed| + |pending|
    && executed == sent[..|executed|]
    && (forall k | 0 <= k < |pending| :: pending[k] == Ticket(|executed| + k, sent[|executed| + k]))
    && (forall id: nat :: id in replies <==> id < |executed|)
  }

  ghost predicate TicketsAgree(s: State) {
    InOrder(s.sent, s.executed, Pending(s), s.replies)
  }

  /** Every pending command is for the typestate it will find, and a consuming one is the last. */
  predicate Fits(state: Typestate, pending: seq<Ticket>) {
    forall k | 0 <= k < |pending| ::
      Accepts(state, pending[k].command) && (Inquires(pending[k].command) || k == |pending| - 1)
  }

  predicate QueueAgrees(s: State) {
    if Serving(s) then Fits(Base(s), Pending(s)) else s.queue == []
  }

  predicate NothingConsumed(pending: seq<Ticket>) {
    forall k | 0 <= k < |pending| :: Inquires(pending[k].command)
  }

  /** The session is in front of its shutdown, in it, or right behind it: nothing pending ends it. */
  predicate Interruptible(s: State) {
    Serving(s) && (Base(s).PrimaryState? || Base(s).PendingState?) && Shutting(Pending(s))
  }

  predicate Shutting(pending: seq<Ticket>) {
    forall k | 0 <= k < |pending| :: Inquires(pending[k].command) || ShutsDown(pending[k].command)
  }

  /** The client's handle, or the one its future resolves to, is the typestate that the worker ends up in. */
  ghost predicate ClientAgrees(s: State) {
    match s.client
    case Connecting =>
      && s.sent == []
      && (match s.init
          case None => s.worker.Opening?
          case Some(None) => s.worker == Exited
          case Some(Some(state)) => s.worker == Idle(state))
    case Holding(facade) => Serving(s) && Base(s) == facade && NothingConsumed(Pending(s))
    case Asking(facade, id) =>
      Serving(s) && Base(s) == facade && NothingConsumed(Pending(s)) && id < |s.sent|
    case Awaiting(facade, command, id) =>
      && Serving(s) && id == |s.sent| - 1 && s.sent[id] == command
      && Accepts(facade, command) && !Inquires(command)
      && (if Pending(s) == [] then
            id in s.replies && Agreed(Polled(facade, command, s.replies[id]), Base(s))
          else Base(s) == facade)
      && (ShutsDown(command) ==> Interruptible(s))
    case Cancelling(_, _) => Interruptible(s)
    case Gone => true
  }

  /** The client holds the handle of exactly this typestate; of an ended session there is none. */
  predicate Agreed(client: Client, state: Typestate) {
    client == if state.EmptyState? then Gone else Holding(state)
  }

  /** A session is served only after the client was told so; one that nobody waits for is not. */
  predicate InitAgrees(s: State) {
    && (s.worker.Opening? ==> s.init == None && s.sent == [] && (s.client == Connecting || s.client == Gone))
    && (Serving(s) ==> s.init.Some? && s.init.value.Some?)
  }

  predicate NoWrongState(s: State) {
    forall id | id in s.replies :: !SaysWrongState(s.replies[id])
  }

  /** Where the native session is, seen from the worker. */
  predicate StageAgrees(s: State) {
    var owner := s.session.owner;
    match s.worker
    case Opening(joined) =>
      owner == P.Starting || owner == StageOf(Opened(joined))
      || (!joined && (owner == P.Releasing || owner == P.Gone))
    case Idle(state) => owner == StageOf(state)
    case Busy(ticket, state) => MidCommand(ticket.command, state, owner)
    case Leaving =>
      P.Idle(owner) || owner == P.Pending || owner == P.Unwinding || owner == P.Recovering || owner == P.Releasing
      || owner == P.Gone
    case Exited => owner == P.Gone
  }

  predicate MidCommand(c: Command, state: Typestate, owner: P.Owner) {
    owner == StageOf(state)
    || (Accepts(state, c) && !Inquires(c) &&
        if ShutsDown(c) then owner == P.ShuttingDown || owner == P.Pending
        else if Restarts(c) then owner == P.Restarting || owner == P.Completion
        else if Ends(c) then
          owner == P.EndWanted || owner == P.EndLocked || owner == P.InEnd || owner == P.Releasing || owner == P.Gone
        else owner == P.Completion)
  }

  ghost predicate Inv(s: State) {
    TicketsAgree(s) && QueueAgrees(s) && ClientAgrees(s) && InitAgrees(s) && NoWrongState(s) && StageAgrees(s)
  }

  // ----- What executing one command does to it -----

  lemma AskedStays(c: Command, state: Typestate, a: Answer)
    requires Inquires(c)
    ensures Execute(c, state, a).state == state
  {}

  /** The reply to a consuming command takes the client to the typestate the worker went to. */
  lemma ReplyAgrees(facade: Typestate, c: Command, a: Answer)
    requires Accepts(facade, c) && !Inquires(c)
    ensures Agreed(Polled(facade, c, Execute(c, facade, a).reply), Execute(c, facade, a).state)
  {}

  /** A shutdown is for the primary session, and leaves it in front of or behind its shutdown. */
  lemma ShutdownStays(state: Typestate, c: Command, a: Answer)
    requires Accepts(state, c) && ShutsDown(c)
    ensures state.PrimaryState?
    ensures Execute(c, state, a).state.PrimaryState? || Execute(c, state, a).state.PendingState?
  {}

  // ----- Every step keeps it -----

  /** Steps that neither send, take nor execute a command. */
  predicate Elsewhere(step: Step) {
    !step.Take? && !step.Complete? && !step.Ask? && !step.Consume?
  }

  lemma PendingElsewhere(s: State, step: Step)
    requires Enabled(s, step) && Elsewhere(step)
    ensures Pending(Next(s, step)) == Pending(s)
  {
    hide P.Next, P.Enabled, Accepts, Inquires, Polled, StageAfter, WorkerMay;
  }

  lemma PendingSent(s: State, step: Step)
    requires Enabled(s, step) && (step.Ask? || step.Consume?)
    ensures Pending(Next(s, step)) == Pending(s) + [Ticket(|s.sent|, step.command)]
  {
    hide Accepts, Inquires;
  }

  lemma PendingAfter(s: State, step: Step)
    requires Enabled(s, step)
    ensures Elsewhere(step) || step.Take? ==> Pending(Next(s, step)) == Pending(s)
    ensures step.Take? ==> |Pending(s)| > 0
    ensures step.Complete? ==> Pending(s) == [s.worker.ticket] + s.queue && Pending(Next(s, step)) == s.queue
    ensures step.Ask? || step.Consume? ==>
              Pending(Next(s, step)) == Pending(s) + [Ticket(|s.sent|, step.command)]
  {
    hide Execute, P.Next, P.Enabled, Accepts, Inquires, Polled, StageAfter, WorkerMay;
    if Elsewhere(step) {
      PendingElsewhere(s, step);
    } else if step.Ask? || step.Consume? {
      PendingSent(s, step);
    }
  }

  lemma SentInOrder(sent: seq<Command>, executed: seq<Command>, pending: seq<Ticket>, replies: map<nat, Reply>, c: Command)
    requires InOrder(sent, executed, pending, replies)
    ensures InOrder(sent + [c], executed, pending + [Ticket(|sent|, c)], replies)
  {}

  lemma ExecutedInOrder(
      sent: seq<Command>, executed: seq<Command>, ticket: Ticket, rest: seq<Ticket>, replies: map<nat, Reply>, r: Reply)
    requires InOrder(sent, executed, [ticket] + rest, replies)
    ensures InOrder(sent, executed + [ticket.command], rest, replies[ticket.id := r])
  {
    assert forall k | 0 <= k < |rest| :: rest[k] == ([ticket] + rest)[k + 1];
    assert ticket == ([ticket] + rest)[0];
  }

  lemma StepKeepsTickets(s: State, step: Step)
    requires TicketsAgree(s) && Enabled(s, step)
    ensures TicketsAgree(Next(s, step))
  {
    hide Execute, P.Next, P.Enabled, Accepts, Inquires, Polled, InOrder, Pending;
    PendingAfter(s, step);
    match step {
      case Complete(a) =>
        var t := s.worker.ticket;
        ExecutedInOrder(s.sent, s.executed, t, s.queue, s.replies, Execute(t.command, s.worker.state, a).reply);
      case Ask(c) => SentInOrder(s.sent, s.executed, Pending(s), s.replies, c);
      case Consume(c) => SentInOrder(s.sent, s.executed, Pending(s), s.replies, c);
      case _ =>
    }
  }

  lemma StepKeepsQueue(s: State, step: Step)
    requires QueueAgrees(s) && ClientAgrees(s) && InitAgrees(s) && Enabled(s, step) && !step.Complete?
    ensures QueueAgrees(Next(s, step))
  {
    hide Execute, P.Next, P.Enabled, Accepts, Inquires, Polled;
    PendingAfter(s, step);
  }

  lemma CompleteKeepsQueue(s: State, a: Answer)
    requires QueueAgrees(s) && Enabled(s, Complete(a))
    ensures QueueAgrees(Next(s, Complete(a)))
  {
    hide Execute, Accepts, Inquires, StageAfter;
    var t := s.worker.ticket;
    assert Pending(s)[0] == t;
    assert forall k | 0 <= k < |s.queue| :: s.queue[k] == Pending(s)[k + 1];
    if s.queue != [] {
      AskedStays(t.command, s.worker.state, a);
    }
  }

  lemma StepKeepsInit(s: State, step: Step)
    requires ClientAgrees(s) && InitAgrees(s) && Enabled(s, step)
    ensures InitAgrees(Next(s, step))
  {
    hide Execute, P.Next, P.Enabled, Accepts, Inquires, Polled, Pending;
  }

  lemma StepKeepsNoWrong(s: State, step: Step)
    requires QueueAgrees(s) && NoWrongState(s) && Enabled(s, step)
    ensures NoWrongState(Next(s, step))
  {
    hide Execute, P.Next, P.Enabled, Accepts, Inquires, Polled, SaysWrongState;
    if step.Complete? {
      assert Pending(s)[0] == s.worker.ticket;
      WrongStateIsInert(s.worker.ticket.command, s.worker.state, step.answer);
    }
  }

  lemma StageAfterIsExact(c: Command, state: Typestate, a: Answer)
    ensures StageOf(Execute(c, state, a).state) == StageAfter(c, state, a)
  {}

  lemma StepKeepsStage(s: State, step: Step)
    requires StageAgrees(s) && Enabled(s, step) && !step.Native?
    ensures StageAgrees(Next(s, step))
  {
    hide Execute, P.Enabled, Accepts, Inquires, Polled;
    if step.Complete? {
      StageAfterIsExact(s.worker.ticket.command, s.worker.state, step.answer);
    }
  }

  lemma NativeKeepsStage(s: State, p: P.Step)
    requires StageAgrees(s) && Enabled(s, Native(p))
    ensures StageAgrees(Next(s, Native(p)))
  {
    hide Execute, Polled;
  }

  /** The client's part for the steps that leave the worker's queue alone. */
  lemma StepKeepsClient(s: State, step: Step)
    requires TicketsAgree(s) && QueueAgrees(s) && ClientAgrees(s) && InitAgrees(s) && NoWrongState(s) && Enabled(s, step)
    requires !step.Complete? && !step.Ready?
    ensures ClientAgrees(Next(s, step))
  {
    hide Execute, P.Next, P.Enabled, Accepts, Inquires, Polled, Pending;
    if step.Consume? && ShutsDown(step.command) {
      ShutdownStays(s.client.facade, step.command, QuietAnswer(false, 0));
    }
    PendingAfter(s, step);
  }

  /** The command of a future that still waits is the last pending one. */
  lemma LastPending(s: State)
    requires TicketsAgree(s) && Pending(s) != []
    ensures |s.sent| > 0 && Pending(s)[|Pending(s)| - 1] == Ticket(|s.sent| - 1, s.sent[|s.sent| - 1])
    ensures |s.sent| - 1 !in s.replies
  {}

  /** The command that was executed is the client's own only if nothing is pending after it. */
  lemma CompleteKeepsClient(s: State, a: Answer)
    requires TicketsAgree(s) && QueueAgrees(s) && ClientAgrees(s) && Enabled(s, Complete(a))
    ensures ClientAgrees(Next(s, Complete(a)))
  {
    hide Execute, P.Next, P.Enabled, Accepts, Inquires, Polled, StageAfter, TicketsAgree, Pending, Fits, Agreed;
    PendingAfter(s, Complete(a));
    LastPending(s);
    var t := s.worker.ticket;
    TakenFits(s.worker.state, t, s.queue);
    if Inquires(t.command) {
      AskedStays(t.command, s.worker.state, a);
      if s.client.Awaiting? && s.queue == [] {
        assert false;
      }
    } else {
      if ShutsDown(t.command) {
        ShutdownStays(s.worker.state, t.command, a);
      }
      ReplyAgrees(s.worker.state, t.command, a);
    }
  }

  lemma TakenFits(state: Typestate, t: Ticket, rest: seq<Ticket>)
    requires Fits(state, [t] + rest)
    ensures Accepts(state, t.command) && (Inquires(t.command) || rest == [])
    ensures NothingConsumed([t] + rest) ==> Inquires(t.command) && NothingConsumed(rest)
    ensures Shutting([t] + rest) ==> (Inquires(t.command) || ShutsDown(t.command)) && Shutting(rest)
  {
    hide Accepts, Inquires;
    assert ([t] + rest)[0] == t;
    assert forall k | 0 <= k < |rest| :: rest[k] == ([t] + rest)[k + 1];
  }

  lemma ReadyKeepsClient(s: State)
    requires TicketsAgree(s) && ClientAgrees(s) && Enabled(s, Ready)
    ensures ClientAgrees(Next(s, Ready))
  {
    hide Execute, P.Next, P.Enabled, Accepts, Inquires, Polled;
    assert s.client.id < |s.executed|;
  }

  lemma StepKeeps(s: State, step: Step)
    requires Inv(s) && Enabled(s, step)
    ensures Inv(Next(s, step))
  {
    hide Next, Enabled, TicketsAgree, QueueAgrees, ClientAgrees, InitAgrees, NoWrongState, StageAgrees;
    StepKeepsTickets(s, step);
    StepKeepsInit(s, step);
    StepKeepsNoWrong(s, step);
    match step {
      case Native(p) => NativeKeepsStage(s, p);
      case _ => StepKeepsStage(s, step);
    }
    match step {
      case Complete(a) =>
        CompleteKeepsQueue(s, a);
        CompleteKeepsClient(s, a);
      case Ready =>
        StepKeepsQueue(s, step);
        ReadyKeepsClient(s);
      case _ =>
        StepKeepsQueue(s, step);
        StepKeepsClient(s, step);
    }
  }

  /** The agreement holds over every interleaving of client, worker and cancelling threads. */
  lemma {:induction false} RunKeeps(joined: bool, steps: seq<Step>)
    requires Run(joined, steps)
    ensures Inv(After(joined, steps))
  {
    if steps != [] {
      var init := steps[..|steps| - 1];
      RunKeeps(joined, init);
      StepKeeps(After(joined, init), steps[|steps| - 1]);
    } else {
      InitiallyAgrees(joined);
    }
  }

  lemma InitiallyAgrees(joined: bool)
    ensures Inv(Initial(joined))
  {}

  // ----- Client and worker agree -----

  function CommandsOf(pending: seq<Ticket>): (commands: seq<Command>)
    ensures |commands| == |pending|
  {
    seq(|pending|, k requires 0 <= k < |pending| => pending[k].command)
  }

  /** Draining a fitting queue: no command finds the wrong typestate, and only a consuming last one moves it. */
  lemma {:induction false} Drains(pending: seq<Ticket>, state: Typestate, answers: seq<Answer>)
    requires Fits(state, pending) && |answers| == |pending|
    ensures
      var h := ExecuteAll(CommandsOf(pending), answers, state);
      && (forall k | 0 <= k < |pending| :: !SaysWrongState(h.replies[k]))
      && (NothingConsumed(pending) ==> h.state == state)
      && (!NothingConsumed(pending) ==>
            var c := pending[|pending| - 1].command;
            Agreed(Polled(state, c, h.replies[|pending| - 1]), h.state))
    decreases |pending|
  {
    hide Execute, Accepts, Inquires, Polled, SaysWrongState;
    if pending != [] {
      var k := |pending| - 1;
      assert CommandsOf(pending)[..k] == CommandsOf(pending[..k]);
      assert NothingConsumed(pending[..k]);
      Drains(pending[..k], state, answers[..k]);
      var c := pending[k].command;
      WrongStateIsInert(c, state, answers[k]);
      if Inquires(c) {
        AskedStays(c, state, answers[k]);
      } else {
        ReplyAgrees(state, c, answers[k]);
      }
    }
  }

  /**
    At any time, whatever Windows answers to the commands that are still pending: the typestate that a handle
    claims is the one the worker ends up in, a future resolves to the typestate the worker ends up in, the
    cached outcomes included, and no reply says that the typestate was wrong.
   */
  lemma ClientAndWorkerAgree(joined: bool, steps: seq<Step>, answers: seq<Answer>)
    requires Run(joined, steps) && Serving(After(joined, steps))
    requires |answers| == |Pending(After(joined, steps))|
    ensures
      var s := After(joined, steps);
      var h := ExecuteAll(CommandsOf(Pending(s)), answers, Base(s));
      && (forall id | id in s.replies :: !SaysWrongState(s.replies[id]))
      && (forall k | 0 <= k < |answers| :: !SaysWrongState(h.replies[k]))
      && (s.client.Holding? || s.client.Asking? ==> h.state == s.client.facade)
      && (s.client.Awaiting? && s.client.id in s.replies ==>
            Agreed(Polled(s.client.facade, s.client.command, s.replies[s.client.id]), h.state))
      && (s.client.Awaiting? && s.client.id !in s.replies ==>
            && |answers| > 0
            && Agreed(Polled(s.client.facade, s.client.command, h.replies[|answers| - 1]), h.state))
  {
    RunKeeps(joined, steps);
    InvAgrees(After(joined, steps), answers);
  }

  lemma InvAgrees(s: State, answers: seq<Answer>)
    requires Inv(s) && Serving(s) && |answers| == |Pending(s)|
    ensures
      var h := ExecuteAll(CommandsOf(Pending(s)), answers, Base(s));
      && (forall id | id in s.replies :: !SaysWrongState(s.replies[id]))
      && (forall k | 0 <= k < |answers| :: !SaysWrongState(h.replies[k]))
      && (s.client.Holding? || s.client.Asking? ==> h.state == s.client.facade)
      && (s.client.Awaiting? && s.client.id in s.replies ==>
            Agreed(Polled(s.client.facade, s.client.command, s.replies[s.client.id]), h.state))
      && (s.client.Awaiting? && s.client.id !in s.replies ==>
            && |answers| > 0
            && Agreed(Polled(s.client.facade, s.client.command, h.replies[|answers| - 1]), h.state))
  {
    hide Execute, Accepts, Inquires, Polled, SaysWrongState, Pending, ExecuteAll;
    var p := Pending(s);
    Drains(p, Base(s), answers);
    if p != [] {
      assert p[|p| - 1].command == s.sent[|s.sent| - 1];
    }
  }

  // ----- First in, first out -----

  /** Executed commands are a prefix of the sent ones, and all of them once the loop has ended. */
  lemma ExecutedInSendOrder(joined: bool, steps: seq<Step>)
    requires Run(joined, steps)
    ensures
      var s := After(joined, steps);
      && s.executed <= s.sent
      && (!Serving(s) ==> s.executed == s.sent)
      && (forall id: nat :: id in s.replies <==> id < |s.executed|)
  {
    RunKeeps(joined, steps);
  }

  /** Whoever waits for a reply has it already, or the worker still holds the command. */
  lemma RepliesCome(joined: bool, steps: seq<Step>)
    requires Run(joined, steps)
    requires After(joined, steps).client.Asking? || After(joined, steps).client.Awaiting?
    ensures
      var s := After(joined, steps);
      s.client.id in s.replies ||
      (Serving(s) && exists k :: 0 <= k < |Pending(s)| && Pending(s)[k].id == s.client.id)
  {
    RunKeeps(joined, steps);
    var s := After(joined, steps);
    if s.client.id !in s.replies {
      assert Pending(s)[s.client.id - |s.executed|].id == s.client.id;
    }
  }

  // ----- What reaches Windows -----

  ghost function TraceOf(joined: bool, steps: seq<Step>): seq<Event>
    requires Run(joined, steps)
  {
    SessionRuns(joined, steps);
    P.TraceOf(NativeSteps(joined, steps))
  }

  /**
    With futures dropped at any point and any number of cancelling threads, the native calls follow the
    discipline; once the worker has exited and the cancelling threads are through, the session is ended.
   */
  lemma NativeCallsAreDisciplined(joined: bool, steps: seq<Step>)
    requires Run(joined, steps)
    ensures Disciplined(TraceOf(joined, steps))
    ensures
      var s := After(joined, steps);
      s.worker == Exited && s.session.cancellers == map[] && s.session.life != P.Finishing ==>
        s.session.life == P.Freed && P.Conserved(CountsOf(TraceOf(joined, steps)))
  {
    var native := NativeSteps(joined, steps);
    SessionRuns(joined, steps);
    P.RunKeeps(native);
    RunKeeps(joined, steps);
    OneSuccess(P.TraceOf(native));
    ExitedIsConserved(After(joined, steps), CountsOf(P.TraceOf(native)));
  }

  lemma ExitedIsConserved(s: State, n: Counts)
    requires StageAgrees(s) && P.Inv(s.session, n) && EndsInOrder(n)
    ensures
      s.worker == Exited && s.session.cancellers == map[] && s.session.life != P.Finishing ==>
        s.session.life == P.Freed && P.Conserved(n)
  {
    if s.worker == Exited && s.session.cancellers == map[] && s.session.life != P.Finishing {
      P.FreedIsConserved(s.session, n);
    }
  }

  /** A reply that hands the typestate back means that its native call was never made. */
  lemma HandedBackUntouched(joined: bool, steps: seq<Step>, a: Answer)
    requires Run(joined, steps) && Enabled(After(joined, steps), Complete(a))
    requires
      var s := After(joined, steps);
      HandsBack(Execute(s.worker.ticket.command, s.worker.state, a).reply)
    ensures
      var s, n := After(joined, steps), CountsOf(TraceOf(joined, steps));
      && Next(s, Complete(a)).worker == Idle(s.worker.state)
      && (s.worker.ticket.command.ShutdownWithProgress? ==> !Has(n, Event.Shutdown))
      && (s.worker.ticket.command.RestartWithProgress? ==> !Has(n, Event.Restart))
  {
    var native := NativeSteps(joined, steps);
    SessionRuns(joined, steps);
    P.RunKeeps(native);
    HandedBackAt(After(joined, steps), a, CountsOf(P.TraceOf(native)));
  }

  lemma HandedBackAt(s: State, a: Answer, n: Counts)
    requires Enabled(s, Complete(a)) && P.Inv(s.session, n)
    requires HandsBack(Execute(s.worker.ticket.command, s.worker.state, a).reply)
    ensures Next(s, Complete(a)).worker == Idle(s.worker.state)
    ensures s.worker.ticket.command.ShutdownWithProgress? ==> !Has(n, Event.Shutdown)
    ensures s.worker.ticket.command.RestartWithProgress? ==> !Has(n, Event.Restart)
  {
    hide P.MutexAgrees, P.EndsAgree, P.CancelsAgree;
    assert Accepts(s.worker.state, s.worker.ticket.command);
    assert P.StageAgrees(s.session.owner, n);
  }

  /**
    As long as a dropped shutdown future asks for cancellation, the session has its owner and is not ended: the
    future's weak reference can be upgraded, and its cancel is not refused.
   */
  lemma CancelIsNeverRefused(joined: bool, steps: seq<Step>)
    requires Run(joined, steps) && After(joined, steps).client.Cancelling?
    ensures CancelGoesThrough(After(joined, steps))
  {
    hide Inv, CancelGoesThrough, P.Inv, P.Run, P.After, P.TraceOf, Disciplined;
    RunKeeps(joined, steps);
    SessionRuns(joined, steps);
    P.RunKeeps(NativeSteps(joined, steps));
    CancellingIsAlive(After(joined, steps), CountsOf(P.TraceOf(NativeSteps(joined, steps))));
  }

  predicate CancelGoesThrough(s: State)
    requires s.client.Cancelling?
  {
    && P.Owned(s.session) && !s.session.ended
    && !P.Enabled(s.session, P.CancelRefused(s.client.thread)) && !Enabled(s, LoopEnds)
  }

  lemma CancellingIsAlive(s: State, n: Counts)
    requires Inv(s) && P.Inv(s.session, n) && s.client.Cancelling?
    ensures CancelGoesThrough(s)
  {
    hide TicketsAgree, QueueAgrees, NoWrongState, InitAgrees, P.StageAgrees, P.MutexAgrees, P.CancelsAgree, Accepts;
    if s.worker.Busy? {
      assert Pending(s)[0] == s.worker.ticket;
    }
  }

  /** How far a dropped shutdown future's cancel has come that has not reached Windows. */
  predicate NotYetCancelled(s: State, t: nat) {
    s.client == Cancelling(t, false)
    || (s.client == Cancelling(t, true) && (P.At(s.session, t, P.Upgraded) || P.At(s.session, t, P.Locked)))
  }

  lemma StepTowardsCancel(s: State, step: Step, t: nat)
    requires NotYetCancelled(s, t) && CancelGoesThrough(s) && Enabled(s, step) && step != Native(P.BeginCancel(t))
    ensures NotYetCancelled(Next(s, step), t)
  {
    hide P.Next, P.Enabled, Execute, WorkerMay, StageAfter, Accepts, Inquires, Resolved;
    match step {
      case Native(p) =>
        if s.client.begun {
          StillCancelling(s.session, p, t);
        }
      case CancelUpgrades => UpgradesToCancel(s, t);
      case _ =>
    }
  }

  lemma StillCancelling(session: P.State, p: P.Step, t: nat)
    requires P.At(session, t, P.Upgraded) || P.At(session, t, P.Locked)
    requires P.Enabled(session, p) && p != P.BeginCancel(t) && !P.Enabled(session, P.CancelRefused(t))
    ensures P.At(P.Next(session, p), t, P.Upgraded) || P.At(P.Next(session, p), t, P.Locked)
  {}

  lemma UpgradesToCancel(s: State, t: nat)
    requires s.client == Cancelling(t, false) && P.Owned(s.session)
    ensures P.At(P.Next(s.session, Upgrading(s)), t, P.Upgraded)
  {}

  lemma CancelStaysBegun(s: State, step: Step, t: nat)
    requires (s.client.Cancelling? && s.client.thread == t) || s.client == Gone
    requires Enabled(s, step)
    ensures var next := Next(s, step).client; (next.Cancelling? && next.thread == t) || next == Gone
  {
    hide P.Next, P.Enabled, Execute, WorkerMay, StageAfter, Accepts, Inquires, Resolved;
  }

  /** RmCancelCurrentTask was issued for thread `t` after step `i`. */
  predicate CancelIssued(steps: seq<Step>, i: nat, t: nat) {
    exists k :: i < k < |steps| && steps[k] == Native(P.BeginCancel(t))
  }

  lemma IssuedStays(steps: seq<Step>, i: nat, t: nat, step: Step)
    requires CancelIssued(steps, i, t) || (step == Native(P.BeginCancel(t)) && i < |steps|)
    ensures CancelIssued(steps + [step], i, t)
  {
    if CancelIssued(steps, i, t) {
      var k :| i < k < |steps| && steps[k] == Native(P.BeginCancel(t));
      assert (steps + [step])[k] == Native(P.BeginCancel(t));
    } else {
      assert (steps + [step])[|steps|] == Native(P.BeginCancel(t));
    }
  }

  /** The client is dropping its shutdown future or has let go; its cancel is under way, or was issued. */
  predicate CancelUnderway(s: State, steps: seq<Step>, i: nat, t: nat) {
    && ((s.client.Cancelling? && s.client.thread == t) || s.client == Gone)
    && (NotYetCancelled(s, t) || CancelIssued(steps, i, t))
  }

  lemma StepKeepsUnderway(s: State, step: Step, steps: seq<Step>, i: nat, t: nat)
    requires CancelUnderway(s, steps, i, t) && Enabled(s, step) && i < |steps|
    requires s.client.Cancelling? ==> CancelGoesThrough(s)
    ensures CancelUnderway(Next(s, step), steps + [step], i, t)
  {
    hide Next, Enabled, CancelGoesThrough, CancelIssued;
    CancelStaysBegun(s, step, t);
    if CancelIssued(steps, i, t) || step == Native(P.BeginCancel(t)) {
      IssuedStays(steps, i, t, step);
    } else {
      StepTowardsCancel(s, step, t);
    }
  }

  /** A dropped shutdown future lets go of its worker only after its RmCancelCurrentTask was issued. */
  lemma {:induction false} CancelReachesWindows(joined: bool, steps: seq<Step>, i: nat, t: nat)
    requires Run(joined, steps) && i < |steps| && steps[i] == DropFuture(t) && Run(joined, steps[..i])
    requires
      var s := After(joined, steps[..i]);
      s.client.Awaiting? && ShutsDown(s.client.command)
    ensures CancelUnderway(After(joined, steps), steps, i, t)
    decreases |steps|
  {
    var init, step := steps[..|steps| - 1], steps[|steps| - 1];
    hide Next, Enabled, CancelGoesThrough, CancelUnderway;
    assert steps == init + [step];
    if i < |steps| - 1 {
      assert init[..i] == steps[..i];
      CancelReachesWindows(joined, init, i, t);
      if After(joined, init).client.Cancelling? {
        CancelIsNeverRefused(joined, init);
      }
      StepKeepsUnderway(After(joined, init), step, init, i, t);
    } else {
      assert init == steps[..i];
      DroppingBegins(After(joined, init), steps, i, t);
    }
  }

  lemma DroppingBegins(s: State, steps: seq<Step>, i: nat, t: nat)
    requires s.client.Awaiting? && ShutsDown(s.client.command) && Enabled(s, DropFuture(t))
    ensures CancelUnderway(Next(s, DropFuture(t)), steps, i, t)
  {}

  /** So whoever has dropped a shutdown future has cancelled. */
  lemma DroppedMeansCancelled(joined: bool, steps: seq<Step>, i: nat, t: nat) returns (k: nat)
    requires Run(joined, steps) && i < |steps| && steps[i] == DropFuture(t) && Run(joined, steps[..i])
    requires
      var s := After(joined, steps[..i]);
      s.client.Awaiting? && ShutsDown(s.client.command)
    requires After(joined, steps).client == Gone
    ensures i < k < |steps| && steps[k] == Native(P.BeginCancel(t))
  {
    CancelReachesWindows(joined, steps, i, t);
    k :| i < k < |steps| && steps[k] == Native(P.BeginCancel(t));
  }

  // ----- The client keeps its handle, and can use it -----

  /** The step gives the handle up: by dropping it or what it became, or at the end of the session. */
  predicate LetsGo(s: State, step: Step) {
    || step.Abandon? || step.DropHandle? || step.CancelDone?
    || (step.ConnectFails? && s.worker == Exited)
    || (step.DropFuture? && s.client.Awaiting? && !ShutsDown(s.client.command))
    || (step.Ready? && s.worker == Idle(EmptyState))
  }

  lemma GoneByLettingGo(s: State, step: Step)
    requires Inv(s) && Enabled(s, step) && s.client != Gone && Next(s, step).client == Gone
    ensures LetsGo(s, step)
  {
    hide P.Next, P.Enabled, Execute, WorkerMay, StageAfter, Accepts, Inquires, QueueAgrees, StageAgrees, InitAgrees;
    if step.Ready? {
      assert s.client.id < |s.executed|;
    }
  }

  /** A client without a handle has let it go itself, or its session had ended. */
  lemma {:induction false} HandleIsKept(joined: bool, steps: seq<Step>) returns (k: nat)
    requires Run(joined, steps) && After(joined, steps).client == Gone
    ensures k < |steps| && Run(joined, steps[..k]) && LetsGo(After(joined, steps[..k]), steps[k])
  {
    hide Next, Enabled, Inv, LetsGo;
    var init, step := steps[..|steps| - 1], steps[|steps| - 1];
    if After(joined, init).client == Gone {
      k := HandleIsKept(joined, init);
      assert init[..k] == steps[..k];
    } else {
      k := |steps| - 1;
      assert steps[..k] == init;
      RunKeeps(joined, init);
      GoneByLettingGo(After(joined, init), step);
    }
  }

  /**
    What the client can do in each of its states: a handle takes every command of its typestate and no other, a
    reply can be taken exactly when it is there, and everything can be dropped.
   */
  lemma NothingBlocksTheClient(s: State, c: Command, t: nat)
    ensures
      match s.client
      case Connecting =>
        && Enabled(s, Abandon) && (Enabled(s, ConnectFails) <==> s.init == Some(None))
        && (Enabled(s, Connect) <==> s.init.Some? && s.init.value.Some?)
      case Holding(facade) =>
        && Enabled(s, DropHandle) && (Enabled(s, Step.Ask(c)) <==> Accepts(facade, c) && Inquires(c))
        && (Enabled(s, Consume(c)) <==> Accepts(facade, c) && !Inquires(c))
      case Asking(_, id) => Enabled(s, DropCall) && (Enabled(s, Answered) <==> id in s.replies)
      case Awaiting(_, _, id) => Enabled(s, DropFuture(t)) && (Enabled(s, Ready) <==> id in s.replies)
      case _ => true
  {
    hide P.Enabled, P.Next, WorkerMay, StageAfter, Accepts, Inquires;
  }

  /** A cancellation handle can be used at any time, by any thread. */
  lemma CancelAtAnyTime(s: State, t: nat)
    requires t !in s.session.cancellers
    ensures Enabled(s, Native(if P.Owned(s.session) then P.Upgrade(t) else P.UpgradeFails(t)))
  {}

  /**
    Windows decides: either answer to opening and ending a session is possible, and so are a taken callback slot
    and a free one.
   */
  lemma WindowsDecides(joined: bool, steps: seq<Step>, ok: bool, a: Answer)
    requires Run(joined, steps) && a.slotTaken
    ensures
      var s := After(joined, steps);
      && (s.worker.Opening? && s.session.owner == P.Starting ==>
            Enabled(s, Native(if s.worker.joined then P.KeyJoined else if ok then P.KeyDecoded else P.KeyRejected)))
      && (s.session.owner == P.InEnd ==> Enabled(s, Native(P.EndReturns(ok))))
      && (s.session.life == P.Finishing ==> Enabled(s, Native(P.FinalReturns(ok))))
      && (s.worker.Busy? && ReportsProgress(s.worker.ticket.command) && s.session.owner == StageOf(s.worker.state) ==>
            Enabled(s, if ok then Native(Begins(s.worker.ticket.command)) else Complete(a)))
  {
    hide Execute, TicketsAgree, QueueAgrees, ClientAgrees, InitAgrees, NoWrongState;
    RunKeeps(joined, steps);
    if After(joined, steps).worker.Busy? {
      BusyAccepts(After(joined, steps));
    }
    WindowsDecidesAt(After(joined, steps), ok, a);
  }

  /** The native call of a command that reports progress. */
  function Begins(command: Command): P.Step {
    if ShutsDown(command) then P.BeginShutdown else P.BeginRestart
  }

  lemma WindowsDecidesAt(s: State, ok: bool, a: Answer)
    requires StageAgrees(s) && a.slotTaken
    requires s.worker.Busy? ==> Accepts(s.worker.state, s.worker.ticket.command)
    ensures s.worker.Opening? && s.session.owner == P.Starting ==>
              Enabled(s, Native(if s.worker.joined then P.KeyJoined else if ok then P.KeyDecoded else P.KeyRejected))
    ensures s.session.owner == P.InEnd ==> Enabled(s, Native(P.EndReturns(ok)))
    ensures s.session.life == P.Finishing ==> Enabled(s, Native(P.FinalReturns(ok)))
    ensures s.worker.Busy? && ReportsProgress(s.worker.ticket.command) && s.session.owner == StageOf(s.worker.state) ==>
              Enabled(s, if ok then Native(Begins(s.worker.ticket.command)) else Complete(a))
  {}

  /** While a command that asks runs, it can call Windows as often as it likes. */
  lemma AskingCanCall(joined: bool, steps: seq<Step>)
    requires Run(joined, steps) && After(joined, steps).worker.Busy?
    requires Inquires(After(joined, steps).worker.ticket.command)
    ensures Enabled(After(joined, steps), Native(P.Queries))
  {
    RunKeeps(joined, steps);
    BusyAccepts(After(joined, steps));
    AskingIsIdle(After(joined, steps));
  }

  lemma AskingIsIdle(s: State)
    requires StageAgrees(s) && s.worker.Busy? && Inquires(s.worker.ticket.command)
    requires Accepts(s.worker.state, s.worker.ticket.command)
    ensures Enabled(s, Native(P.Queries))
  {}

  // ----- What the client is told is what Windows did -----

  /** Step `k` replies to the command with this ticket. */
  ghost predicate RepliesAt(joined: bool, steps: seq<Step>, k: nat) {
    k < |steps| && Run(joined, steps[..k]) && steps[k].Complete? && After(joined, steps[..k]).worker.Busy?
  }

  /** Every reply was made by executing its own command, and tells what Windows answered to it. */
  lemma {:induction false} RepliesTellWindows(joined: bool, steps: seq<Step>, id: nat) returns (k: nat)
    requires Run(joined, steps) && id in After(joined, steps).replies
    ensures RepliesAt(joined, steps, k)
    ensures
      var s, at := After(joined, steps), After(joined, steps[..k]);
      && id < |s.sent| && at.worker.ticket == Ticket(id, s.sent[id]) && Accepts(at.worker.state, s.sent[id])
      && ReplyTells(s.sent[id], at.worker.state, steps[k].answer, s.replies[id])
  {
    hide Next, Enabled, Inv, ReplyTells, Accepts, Execute;
    var init, step := steps[..|steps| - 1], steps[|steps| - 1];
    var s := After(joined, init);
    RunKeeps(joined, init);
    ReplyCame(s, step, id);
    if step.Complete? && s.worker.ticket.id == id {
      k := |steps| - 1;
      assert steps[..k] == init;
    } else {
      k := RepliesTellWindows(joined, init, id);
      assert init[..k] == steps[..k];
    }
  }

  /** A reply is made by the step that executes its command, or was there before. */
  lemma ReplyCame(s: State, step: Step, id: nat)
    requires Inv(s) && Enabled(s, step) && id in Next(s, step).replies
    ensures s.sent <= Next(s, step).sent && (step.Complete? ==> s.worker.Busy?)
    ensures
      if step.Complete? && s.worker.ticket.id == id then
        && id < |s.sent| && s.worker.ticket.command == s.sent[id] && Accepts(s.worker.state, s.sent[id])
        && ReplyTells(s.sent[id], s.worker.state, step.answer, Next(s, step).replies[id])
      else id in s.replies && Next(s, step).replies[id] == s.replies[id]
  {
    hide P.Next, P.Enabled, WorkerMay, StageAfter, ClientAgrees, StageAgrees, ReplyTells, Execute, Resolved;
    if step.Complete? {
      assert Pending(s)[0] == s.worker.ticket;
      ExecuteTells(s.worker.ticket.command, s.worker.state, step.answer);
    }
  }

  /** The shutdown outcome that a typestate behind the shutdown carries. */
  function ShutdownOf(state: Typestate): Progress.OperationOutcome
    requires state.PendingState? || state.CompletionState?
  {
    if state.PendingState? then state.shutdown else state.outcome.shutdown
  }

  lemma OutcomesMove(c: Command, state: Typestate, a: Answer)
    requires Accepts(state, c)
    ensures
      var next := Execute(c, state, a).state;
      && (next.PendingState? && !state.PendingState? ==> state.PrimaryState? && ShutsDown(c) && Tells(next.shutdown, c, a))
      && (next.CompletionState? && !state.CompletionState? ==>
            state.PendingState? && (Restarts(c) || c.LeaveStopped?) && Retains(next.outcome, state.shutdown, c, a))
      && (next.PendingState? && state.PendingState? ==> next == state)
      && (next.CompletionState? && state.CompletionState? ==> next == state)
  {}

  /** What the worker's typestate is after a step. */
  lemma BaseMoves(s: State, step: Step)
    requires Inv(s) && Enabled(s, step) && Serving(Next(s, step))
    ensures
      if step.Complete? then
        && s.worker.Busy? && Accepts(s.worker.state, s.worker.ticket.command)
        && Base(Next(s, step)) == Execute(s.worker.ticket.command, s.worker.state, step.answer).state
      else if Serving(s) then Base(Next(s, step)) == Base(s)
      else !Base(Next(s, step)).PendingState? && !Base(Next(s, step)).CompletionState?
  {
    hide P.Next, P.Enabled, WorkerMay, StageAfter, ClientAgrees, StageAgrees, Execute, Accepts, Inquires, Resolved;
    if step.Complete? {
      assert Pending(s)[0] == s.worker.ticket;
    }
  }

  /** The shutdown outcome that is retained up to the end is what Windows made of the shutdown. */
  lemma {:induction false} ShutdownOutcomeIsTrue(joined: bool, steps: seq<Step>) returns (k: nat)
    requires Run(joined, steps) && Serving(After(joined, steps))
    requires Base(After(joined, steps)).PendingState? || Base(After(joined, steps)).CompletionState?
    ensures RepliesAt(joined, steps, k)
    ensures
      var c := After(joined, steps[..k]).worker.ticket.command;
      ShutsDown(c) && Tells(ShutdownOf(Base(After(joined, steps))), c, steps[k].answer)
  {
    hide Next, Enabled, Inv, Execute, Accepts, Tells;
    var init, step := steps[..|steps| - 1], steps[|steps| - 1];
    var s := After(joined, init);
    RunKeeps(joined, init);
    BaseMoves(s, step);
    if step.Complete? {
      OutcomesMove(s.worker.ticket.command, s.worker.state, step.answer);
    }
    if step.Complete? && !s.worker.state.PendingState? && !s.worker.state.CompletionState? {
      k := |steps| - 1;
      assert steps[..k] == init;
    } else {
      k := ShutdownOutcomeIsTrue(joined, init);
      assert init[..k] == steps[..k];
    }
  }

  /** So is the restart outcome, which is missing exactly after leave_stopped. */
  lemma {:induction false} RestartOutcomeIsTrue(joined: bool, steps: seq<Step>) returns (k: nat)
    requires Run(joined, steps) && Serving(After(joined, steps)) && Base(After(joined, steps)).CompletionState?
    ensures RepliesAt(joined, steps, k)
    ensures
      var c, outcome := After(joined, steps[..k]).worker.ticket.command, Base(After(joined, steps)).outcome;
      (Restarts(c) || c.LeaveStopped?) && Retains(outcome, outcome.shutdown, c, steps[k].answer)
  {
    hide Next, Enabled, Inv, Execute, Accepts, Tells;
    var init, step := steps[..|steps| - 1], steps[|steps| - 1];
    var s := After(joined, init);
    RunKeeps(joined, init);
    BaseMoves(s, step);
    if step.Complete? {
      OutcomesMove(s.worker.ticket.command, s.worker.state, step.answer);
    }
    if step.Complete? && !s.worker.state.CompletionState? {
      k := |steps| - 1;
      assert steps[..k] == init;
    } else {
      k := RestartOutcomeIsTrue(joined, init);
      assert init[..k] == steps[..k];
    }
  }

  lemma {:induction false} EndIsLogged(joined: bool, steps: seq<Step>)
    requires Run(joined, steps) && After(joined, steps).endOk
    ensures Has(CountsOf(TraceOf(joined, steps)), EndReturn(Explicit, true))
  {
    var init, step := steps[..|steps| - 1], steps[|steps| - 1];
    var s := After(joined, init);
    var before := NativeSteps(joined, init);
    hide Enabled, Next, P.Run, P.After, P.TraceOf, NativeStep;
    SessionRuns(joined, init);
    EndOkIsSetByEnd(s, step);
    if s.endOk {
      EndIsLogged(joined, init);
    }
    NativeStepLogs(s, step, before);
  }

  lemma EndOkIsSetByEnd(s: State, step: Step)
    requires Enabled(s, step) && Next(s, step).endOk
    ensures s.endOk || step == Native(P.EndReturns(true))
  {
    hide P.Enabled, P.Next, Execute, WorkerMay, StageAfter;
  }

  /** A step only adds to the native calls. */
  lemma NativeStepLogs(s: State, step: Step, before: seq<P.Step>)
    requires Enabled(s, step) && P.Run(before) && P.After(before) == s.session
    ensures
      var n, m := CountsOf(P.TraceOf(before)), CountsOf(P.TraceOf(before + NativeStep(s, step)));
      var ended := EndReturn(Explicit, true);
      m(ended) >= n(ended) + if step == Native(P.EndReturns(true)) then 1 else 0
  {
    hide P.Run, P.After, P.TraceOf, P.Enabled, P.Next, WorkerMay, StageAfter;
    var native := NativeStep(s, step);
    if native == [] {
      assert before + native == before;
    } else {
      P.RunSnoc(before, native[0]);
      match P.Emits(s.session, native[0]) {
        case None => assert P.TraceOf(before) + [] == P.TraceOf(before);
        case Some(e) => TimesSnoc(P.TraceOf(before), e);
      }
    }
  }

  predicate SaysEnded(reply: Reply) {
    reply == Plain(Ok(())) || (reply.OfRecovery? && reply.recovery.Ok?)
  }

  /** An end that replies Ok has ended the session: RmEndSession succeeded. */
  lemma EndedWhenOk(joined: bool, steps: seq<Step>, a: Answer)
    requires Run(joined, steps) && Enabled(After(joined, steps), Complete(a))
    requires Ends(After(joined, steps).worker.ticket.command)
    requires SaysEnded(Execute(After(joined, steps).worker.ticket.command, After(joined, steps).worker.state, a).reply)
    ensures Has(CountsOf(TraceOf(joined, steps)), EndReturn(Explicit, true))
  {
    hide Execute, P.TraceOf, NativeSteps;
    OkNeedsEnd(After(joined, steps), a);
    EndIsLogged(joined, steps);
  }

  lemma OkNeedsEnd(s: State, a: Answer)
    requires Enabled(s, Complete(a)) && Ends(s.worker.ticket.command)
    requires SaysEnded(Execute(s.worker.ticket.command, s.worker.state, a).reply)
    ensures s.endOk
  {}

  // ----- The calls of a command -----

  /** The event belongs to the end behind the last reference. */
  predicate IsFinal(e: Event) {
    (e.EndBegin? || e.EndReturn?) && e.kind == Final
  }

  /** The calls that a command has made when the native session is at this stage. */
  function CallsBy(c: Command, state: Typestate, owner: P.Owner, endOk: bool): seq<Event> {
    if !Accepts(state, c) then []
    else if ShutsDown(c) then (if owner == P.Primary then [] else [Event.Shutdown])
    else if Restarts(c) then (if owner == P.Pending then [] else [Event.Restart])
    else if Ends(c) then
      match owner
      case InEnd => [EndBegin(Explicit)]
      case Releasing => [EndBegin(Explicit), EndReturn(Explicit, endOk)]
      case Gone => [EndBegin(Explicit), EndReturn(Explicit, endOk)]
      case _ => []
    else if owner == P.Pending then []
    else [LeftStopped]
  }

  predicate CallsAgree(s: State) {
    s.worker.Busy? ==>
      if Inquires(s.worker.ticket.command) then
        && s.calls == seq(|s.calls|, _ => Query)
        && (!Accepts(s.worker.state, s.worker.ticket.command) ==> s.calls == [])
      else s.calls == CallsBy(s.worker.ticket.command, s.worker.state, s.session.owner, s.endOk)
  }

  lemma StepKeepsCalls(s: State, step: Step)
    requires CallsAgree(s) && StageAgrees(s) && Enabled(s, step) && !step.Native?
    ensures CallsAgree(Next(s, step))
  {
    hide Execute, P.Enabled, Polled;
    if step.CancelUpgrades? {
      assert P.Next(s.session, Upgrading(s)).owner == s.session.owner;
    }
  }

  lemma NativeKeepsCalls(s: State, p: P.Step)
    requires CallsAgree(s) && StageAgrees(s) && Enabled(s, Native(p)) && !P.Enabled(s.session, P.EndFoundDone)
    ensures CallsAgree(Next(s, Native(p)))
  {
    if s.worker.Busy? {
      if P.CancelStep(p) || p.FinalReturns? {
        OthersKeepOwner(s.session, p);
        assert s.calls + [] == s.calls;
      } else {
        OwnStepKeepsCalls(s, p);
      }
    }
  }

  lemma OthersKeepOwner(session: P.State, p: P.Step)
    requires P.Enabled(session, p) && (P.CancelStep(p) || p.FinalReturns?)
    ensures P.Next(session, p).owner == session.owner && !p.EndReturns?
  {}

  lemma OwnStepKeepsCalls(s: State, p: P.Step)
    requires s.worker.Busy? && CallsAgree(s) && StageAgrees(s) && !P.Enabled(s.session, P.EndFoundDone)
    requires P.Enabled(s.session, p) && WorkerMay(s.worker, p) && !P.CancelStep(p) && !p.FinalReturns?
    ensures CallsAgree(Next(s, Native(p)))
  {
    hide P.CancelStep, P.Next, Execute, Polled;
    var c, state := s.worker.ticket.command, s.worker.state;
    var owner := P.Next(s.session, p).owner;
    if Inquires(c) {
      assert seq(|s.calls| + 1, _ => Query) == seq(|s.calls|, _ => Query) + [Query];
    } else {
      CallsMove(c, state, s.session, p, s.endOk);
    }
  }

  lemma CallsMove(c: Command, state: Typestate, session: P.State, p: P.Step, endOk: bool)
    requires Accepts(state, c) && !Inquires(c) && Does(c, p) && MidCommand(c, state, session.owner)
    requires P.Enabled(session, p) && !P.CancelStep(p) && !p.EndFoundDone?
    ensures
      CallsBy(c, state, P.Next(session, p).owner, if p.EndReturns? then p.ok else endOk) ==
      CallsBy(c, state, session.owner, endOk) + P.Logged(CommandCall(session, p))
  {
    hide P.CancelStep;
  }

  lemma {:induction false} CallsKeep(joined: bool, steps: seq<Step>)
    requires Run(joined, steps)
    ensures CallsAgree(After(joined, steps))
  {
    if steps != [] {
      var init, step := steps[..|steps| - 1], steps[|steps| - 1];
      CallsKeep(joined, init);
      RunKeeps(joined, init);
      match step {
        case Native(p) =>
          SessionRuns(joined, init);
          P.EndNeverFoundDone(NativeSteps(joined, init));
          NativeKeepsCalls(After(joined, init), p);
        case _ => StepKeepsCalls(After(joined, init), step);
      }
    }
  }

  /**
    The native calls between taking a command and replying to it are exactly the ones that executing it is
    specified to make, except that the end behind the last reference may be another thread's.
   */
  lemma CommandMakesItsCalls(joined: bool, steps: seq<Step>, a: Answer)
    requires Run(joined, steps) && Enabled(After(joined, steps), Complete(a))
    ensures
      var s := After(joined, steps);
      var calls := Execute(s.worker.ticket.command, s.worker.state, a).calls;
      && s.calls <= calls
      && (forall k | |s.calls| <= k < |calls| :: IsFinal(calls[k]))
      && (!Ends(s.worker.ticket.command) ==> s.calls == calls)
  {
    CallsKeep(joined, steps);
    RunKeeps(joined, steps);
    CompletedCalls(After(joined, steps), a);
  }

  lemma CompletedCalls(s: State, a: Answer)
    requires CallsAgree(s) && StageAgrees(s) && Enabled(s, Complete(a))
    ensures
      var calls := Execute(s.worker.ticket.command, s.worker.state, a).calls;
      && s.calls <= calls
      && (forall k | |s.calls| <= k < |calls| :: IsFinal(calls[k]))
      && (!Ends(s.worker.ticket.command) ==> s.calls == calls)
  {}

  /**
    At the end of a command that reports progress, the reply hands the typestate back exactly if no native call
    was made since the command was taken.
   */
  lemma HandedBackIffNoCall(joined: bool, steps: seq<Step>, a: Answer)
    requires Run(joined, steps) && Enabled(After(joined, steps), Complete(a))
    requires ReportsProgress(After(joined, steps).worker.ticket.command)
    ensures
      var s := After(joined, steps);
      HandsBack(Execute(s.worker.ticket.command, s.worker.state, a).reply) <==> s.calls == []
  {
    var s := After(joined, steps);
    hide Execute, HandsBack, Inv;
    CommandMakesItsCalls(joined, steps, a);
    RunKeeps(joined, steps);
    BusyAccepts(s);
    HandedBackIffNotStarted(s.worker.ticket.command, s.worker.state, a);
  }

  lemma BusyAccepts(s: State)
    requires Inv(s) && s.worker.Busy?
    ensures Accepts(s.worker.state, s.worker.ticket.command)
  {
    assert Pending(s)[0] == s.worker.ticket;
  }

  // ----- The worker, the client and the session come to an end -----

  predicate ByClient(step: Step) {
    step.Connect? || step.ConnectFails? || step.Abandon? || step.Ask? || step.Answered? || step.DropCall?
    || step.Consume? || step.Ready? || step.DropFuture? || step.CancelUpgrades? || step.CancelDone? || step.DropHandle?
  }

  /** Steps that start something: a further command, query or cancel. */
  predicate NewWork(step: Step) {
    step.Ask? || step.Consume? || (step.Native? && P.NewWork(step.step))
  }

  /** The step is the worker's own, or that of the canceller whose mutex it waits for. */
  predicate ServesWorker(s: State, step: Step) {
    !ByClient(step) && !NewWork(step) &&
    (step.Native? && P.CancelStep(step.step) ==> P.ServesOwner(s.session, step.step))
  }

  /**
    Unless the worker waits for the next command of a live client, it can move, or the canceller can that holds
    the mutex it waits for: nothing a client or another canceller does, or omits, keeps it from going on.
   */
  lemma WorkerNeverStuck(joined: bool, steps: seq<Step>) returns (step: Step)
    requires Run(joined, steps)
    requires
      var s := After(joined, steps);
      s.worker != Exited && !(s.worker.Idle? && s.queue == [] && s.client != Gone)
    ensures Enabled(After(joined, steps), step) && ServesWorker(After(joined, steps), step)
  {
    var native := NativeSteps(joined, steps);
    SessionRuns(joined, steps);
    P.RunKeeps(native);
    RunKeeps(joined, steps);
    var s := After(joined, steps);
    hide Enabled, WorkerMove, ServesWorker, P.StageAgrees, P.EndsAgree;
    if s.session.owner == P.EndWanted && s.session.mutex != None {
      step := HolderMoves(s, CountsOf(P.TraceOf(native)));
    } else {
      WorkerCanMove(s);
      step := WorkerMove(s);
    }
  }

  /** Windows accepts everything, except that what was called already had the result that it had. */
  function QuietAnswer(endOk: bool, queries: nat): Answer {
    Answer(queries, Ok(()), false, [], Codes(if endOk then ERROR_SUCCESS else 1, 0, 0))
  }

  /** The worker's next step while it executes a command. */
  function CommandMove(c: Command, state: Typestate, session: P.State, a: Answer): Step {
    if !Accepts(state, c) || Inquires(c) || session.owner == StageAfter(c, state, a) then
      Complete(a)
    else
      Native(
        match session.owner
        case ShuttingDown => P.ShutdownReturns
        case Restarting => P.RestartReturns
        case EndWanted => P.LockForEnd
        case EndLocked => if session.ended then P.EndFoundDone else P.BeginEnd
        case InEnd => P.EndReturns(true)
        case Releasing => P.OwnerReleases
        case _ =>
          if ShutsDown(c) then P.BeginShutdown
          else if Restarts(c) then P.BeginRestart
          else if Ends(c) then P.WantEnd
          else P.Step.LeaveStopped)
  }

  function OpeningMove(joined: bool, owner: P.Owner): Step {
    match owner
    case Starting => Native(if joined then P.KeyJoined else P.KeyDecoded)
    case Releasing => Native(P.OwnerReleases)
    case Gone => InitFails
    case _ => SendInit
  }

  function LeavingMove(owner: P.Owner): Step {
    match owner
    case Pending => Native(P.DropPending)
    case Unwinding => Native(P.BeginRecovery)
    case Recovering => Native(P.RecoveryReturns)
    case Releasing => Native(P.OwnerReleases)
    case Gone => Exit
    case _ => Native(P.DropPlain)
  }

  function WorkerMove(s: State): Step {
    match s.worker
    case Opening(joined) => OpeningMove(joined, s.session.owner)
    case Idle(_) => if s.queue != [] then Take else LoopEnds
    case Busy(ticket, state) => CommandMove(ticket.command, state, s.session, QuietAnswer(s.endOk, |s.calls|))
    case Leaving => LeavingMove(s.session.owner)
    case Exited => Exit
  }

  lemma CommandCanMove(s: State)
    requires StageAgrees(s) && s.worker.Busy? && (s.session.owner == P.EndWanted ==> s.session.mutex == None)
    ensures
      var step := CommandMove(s.worker.ticket.command, s.worker.state, s.session, QuietAnswer(s.endOk, |s.calls|));
      Enabled(s, step) && ServesWorker(s, step)
  {}

  /** The worker's next step can be impossible only because the mutex is taken. */
  lemma WorkerCanMove(s: State)
    requires StageAgrees(s) && s.worker != Exited && !(s.worker.Idle? && s.queue == [] && s.client != Gone)
    requires s.session.owner == P.EndWanted ==> s.session.mutex == None
    ensures Enabled(s, WorkerMove(s)) && ServesWorker(s, WorkerMove(s))
  {
    hide CommandMove;
    if s.worker.Busy? {
      CommandCanMove(s);
    }
  }

  lemma HolderMoves(s: State, n: Counts) returns (step: Step)
    requires P.Inv(s.session, n) && s.session.owner == P.EndWanted && s.session.mutex != None
    ensures Enabled(s, step) && ServesWorker(s, step)
  {
    var holder := s.session.mutex.value;
    assert holder.ByCanceller?;
    assert P.At(s.session, holder.thread, P.Locked) || P.At(s.session, holder.thread, P.InNative);
    step := Native(P.CancellerCanMove(s.session, holder.thread));
  }

  // ----- Bounds -----

  function ThreadRank(worker: Thread): nat {
    match worker
    case Opening(_) => 4
    case Busy(_, _) => 3
    case Idle(_) => 2
    case Leaving => 1
    case Exited => 0
  }

  function ClientRank(client: Client): nat {
    match client
    case Awaiting(_, _, _) => 7
    case Cancelling(_, begun) => if begun then 1 else 6
    case Connecting => 3
    case Asking(_, _) => 3
    case Holding(_) => 2
    case Gone => 0
  }

  /** The steps that are left at most, if nothing new is started; all cancelling threads are numbered below `bound`. */
  function Work(s: State, bound: nat): nat {
    2 * |s.queue| + ThreadRank(s.worker) + ClientRank(s.client) + P.Work(s.session, bound)
  }

  predicate Numbered(s: State, bound: nat) {
    Below(s.session.cancellers, bound) && (s.client.Cancelling? ==> s.client.thread < bound)
  }

  predicate InBound(step: Step, bound: nat) {
    step.DropFuture? ==> step.thread < bound
  }

  /** Every step that starts nothing new uses up work, the cancel of a dropped future included. */
  lemma StepUsesWork(s: State, step: Step, bound: nat)
    requires (s.session.life == P.Alive <==> P.Owned(s.session)) && Numbered(s, bound)
    requires Enabled(s, step) && !NewWork(step) && InBound(step, bound)
    ensures Work(Next(s, step), bound) < Work(s, bound) && Numbered(Next(s, step), bound)
  {
    hide P.Work, P.Next, P.Enabled, WorkerMay, StageAfter, Execute, Accepts, Inquires, Resolved;
    match step {
      case Native(p) => P.StepUsesWork(s.session, p, bound);
      case CancelUpgrades => UpgradingAddsLess(s, bound);
      case _ =>
    }
  }

  lemma UpgradingAddsLess(s: State, bound: nat)
    requires Enabled(s, CancelUpgrades) && Numbered(s, bound)
    ensures P.Work(P.Next(s.session, Upgrading(s)), bound) <= P.Work(s.session, bound) + 4
    ensures Below(P.Next(s.session, Upgrading(s)).cancellers, bound)
  {
    LoadPut(P.CancellerRank, s.session.cancellers, s.client.thread, P.Upgraded, bound);
  }

  /** The client has let go, the worker has exited, and the session is freed. */
  predicate Over(s: State) {
    s.client == Gone && s.worker == Exited && s.session.life == P.Freed
  }

  /** Until everything is over some step is possible that starts nothing new. */
  lemma NeverStuck(joined: bool, steps: seq<Step>) returns (step: Step)
    requires Run(joined, steps) && !Over(After(joined, steps))
    ensures Enabled(After(joined, steps), step) && !NewWork(step)
  {
    hide Enabled, P.Enabled, P.Inv, ServesWorker;
    var s := After(joined, steps);
    if s.worker != Exited && !(s.worker.Idle? && s.queue == [] && s.client != Gone) {
      step := WorkerNeverStuck(joined, steps);
      ServingStartsNothing(s, step);
    } else {
      var native := NativeSteps(joined, steps);
      SessionRuns(joined, steps);
      P.RunKeeps(native);
      RunKeeps(joined, steps);
      step := RestCanMove(s, CountsOf(P.TraceOf(native)));
    }
  }

  lemma ServingStartsNothing(s: State, step: Step)
    requires ServesWorker(s, step)
    ensures !NewWork(step)
  {}

  lemma RestCanMove(s: State, n: Counts) returns (step: Step)
    requires P.Inv(s.session, n) && StageAgrees(s) && !Over(s)
    requires s.worker == Exited || (s.worker.Idle? && s.client != Gone)
    ensures Enabled(s, step) && !NewWork(step)
  {
    hide P.StageAgrees, P.EndsAgree, P.CancelsAgree;
    match s.client {
      case Connecting => step := Abandon;
      case Holding(_) => step := DropHandle;
      case Asking(_, _) => step := DropCall;
      case Awaiting(_, _, _) => step := DropFuture(0);
      case Cancelling(t, begun) =>
        if t !in s.session.cancellers {
          step := if begun then CancelDone else CancelUpgrades;
        } else {
          step := CancellersCanMove(s, n, t);
        }
      case Gone =>
        if s.session.cancellers != map[] {
          var t: nat :| t in s.session.cancellers;
          step := CancellersCanMove(s, n, t);
        } else {
          assert s.session.life == P.Finishing;
          step := Native(P.FinalReturns(true));
        }
    }
  }

  /** A canceller can go on, or the one that holds its mutex can, while the worker is not inside an end. */
  lemma CancellersCanMove(s: State, n: Counts, t: nat) returns (step: Step)
    requires P.Inv(s.session, n) && t in s.session.cancellers
    requires s.session.owner != P.EndLocked && s.session.owner != P.InEnd
    ensures Enabled(s, step) && !NewWork(step)
  {
    hide P.StageAgrees, P.EndsAgree, P.CancelsAgree;
    var u := t;
    if s.session.mutex.Some? {
      assert s.session.mutex.value.ByCanceller?;
      u := s.session.mutex.value.thread;
      assert P.At(s.session, u, P.Locked) || P.At(s.session, u, P.InNative);
    }
    step := Native(P.CancellerCanMove(s.session, u));
  }

  /**
    Once nothing new is started, whatever the order of client, worker and cancelling threads, and wherever
    futures are dropped: at most `Work` steps follow. When they cannot go on the client has let go, every command
    that was sent has been executed, the worker has exited, and the session is freed and conserved.
   */
  lemma {:induction false} EverythingDrains(joined: bool, steps: seq<Step>, more: seq<Step>, bound: nat)
    requires Run(joined, steps) && Run(joined, steps + more) && Numbered(After(joined, steps), bound)
    requires forall k | 0 <= k < |more| :: !NewWork(more[k]) && InBound(more[k], bound)
    ensures |more| + Work(After(joined, steps + more), bound) <= Work(After(joined, steps), bound)
    ensures Numbered(After(joined, steps + more), bound)
    ensures
      var s := After(joined, steps + more);
      (forall step | Enabled(s, step) :: NewWork(step)) ==>
        Over(s) && s.executed == s.sent && P.Conserved(CountsOf(TraceOf(joined, steps + more)))
    decreases |more|
  {
    hide Enabled, Next, Work, Numbered, InBound, NewWork, P.Conserved, TraceOf;
    if more == [] {
      assert steps + more == steps;
    } else {
      var init, step := more[..|more| - 1], more[|more| - 1];
      assert (steps + more)[..|steps + more| - 1] == steps + init && (steps + more)[|steps + more| - 1] == step;
      EverythingDrains(joined, steps, init, bound);
      SessionIsOwned(joined, steps + init);
      StepUsesWork(After(joined, steps + init), step, bound);
    }
    if forall step | Enabled(After(joined, steps + more), step) :: NewWork(step) {
      if !Over(After(joined, steps + more)) {
        var step := NeverStuck(joined, steps + more);
      }
      OverIsConserved(joined, steps + more);
    }
  }

  lemma SessionIsOwned(joined: bool, steps: seq<Step>)
    requires Run(joined, steps)
    ensures After(joined, steps).session.life == P.Alive <==> P.Owned(After(joined, steps).session)
  {
    SessionRuns(joined, steps);
    P.RunIsOwned(NativeSteps(joined, steps));
  }

  lemma OverIsConserved(joined: bool, steps: seq<Step>)
    requires Run(joined, steps) && Over(After(joined, steps))
    ensures After(joined, steps).executed == After(joined, steps).sent
    ensures P.Conserved(CountsOf(TraceOf(joined, steps)))
  {
    hide P.Conserved;
    ExecutedInSendOrder(joined, steps);
    SessionRuns(joined, steps);
    P.SessionConserved(NativeSteps(joined, steps));
  }
}
