/**
  The application restart registration: one per process, guarded by an atomic flag. First the objects, run by
  one thread; then every interleaving of any number of threads.
 */
module RegistrationLease {
  import opened NativeTypes
  import opened Wrappers

  const MAX_RESTART_ARGUMENT_UNITS: nat := 1024

  datatype Options = Options(arguments: seq<Unit>, crash: bool, hang: bool, update: bool, reboot: bool)

  /** The registration that Windows keeps for the process. */
  datatype Native = Native(arguments: seq<Unit>, flags: U32)

  function Bit(disabled: bool, value: nat): nat {
    if disabled then value else 0
  }

  function NativeFlags(o: Options): U32 {
    Bit(!o.crash, 1) + Bit(!o.hang, 2) + Bit(!o.update, 4) + Bit(!o.reboot, 8)
  }

  function NativeOf(o: Options): Native {
    Native(o.arguments, NativeFlags(o))
  }

  /** What Windows reads from the flags: the lowest four bits say which reasons must not restart the process. */
  predicate Disables(flags: U32, o: Options) {
    && (flags % 2 == 1 <==> !o.crash)
    && (flags / 2 % 2 == 1 <==> !o.hang)
    && (flags / 4 % 2 == 1 <==> !o.update)
    && (flags / 8 % 2 == 1 <==> !o.reboot)
    && flags < 16
  }

  lemma FlagsDisable(o: Options)
    ensures Disables(NativeFlags(o), o)
  {}

  /** Windows has the arguments and policies of these options. */
  predicate Has(registered: Option<Native>, o: Options) {
    registered.Some? && registered.value.arguments == o.arguments && Disables(registered.value.flags, o)
  }

  /** Windows' registration determines the options. */
  lemma NativeIsExact(a: Options, b: Options)
    ensures NativeOf(a) == NativeOf(b) <==> a == b
  {}

  predicate ValidArguments(arguments: seq<Unit>) {
    0 !in arguments && |arguments| <= MAX_RESTART_ARGUMENT_UNITS
  }

  datatype Error = InvalidInput | InUse | HResult(code: int)

  /** A native call succeeds with a non-negative HRESULT. */
  predicate Succeeds(hresult: I32) {
    hresult >= 0
  }

  // ----- The objects -----

  /** What the registrations of one process share: the flag, and Windows' side. */
  class Process {
    var owned: bool
    var registered: Option<Native>

    constructor ()
      ensures !owned && registered == None
    {
      owned, registered := false, None;
    }

    method RegisterApplicationRestart(o: Options, hresult: I32) returns (ok: bool)
      modifies this`registered
      ensures ok == (hresult >= 0)
      ensures registered == if ok then Some(NativeOf(o)) else old(registered)
    {
      ok := Succeeds(hresult);
      if ok {
        registered := Some(NativeOf(o));
      }
    }

    method UnregisterApplicationRestart(hresult: I32) returns (ok: bool)
      modifies this`registered
      ensures ok == (hresult >= 0)
      ensures registered == if ok then None else old(registered)
    {
      ok := Succeeds(hresult);
      if ok {
        registered := None;
      }
    }
  }

  class Registration {
    const process: Process
    var options: Options
    var armed: bool

    /** The value holds the lease and its options are the ones that Windows has. */
    ghost predicate Armed()
      reads this, process
    {
      armed && process.owned && process.registered == Some(NativeOf(options))
    }

    constructor (process: Process, options: Options)
      ensures this.process == process && this.options == options && armed
    {
      this.process, this.options, armed := process, options, true;
    }

    method Update(options: Options, hresult: I32) returns (r: Result<(), Error>)
      requires Armed()
      modifies this`options, process`registered
      ensures Armed() && Has(process.registered, this.options)
      ensures r == if 0 in options.arguments || |options.arguments| > 1024 then Err(InvalidInput)
                   else if hresult >= 0 then Ok(()) else Err(HResult(hresult))
      ensures this.options == if r.Ok? then options else old(this.options)
    {
      if !ValidArguments(options.arguments) {
        return Err(InvalidInput);
      }
      var ok := process.RegisterApplicationRestart(options, hresult);
      if !ok {
        return Err(HResult(hresult));
      }
      this.options := options;
      return Ok(());
    }

    method Disarm()
      modifies this`armed, process`owned
      ensures !armed && !process.owned
    {
      armed := false;
      process.owned := false;
    }

    /** The destructor: an armed value makes one best-effort attempt, and gives up the lease in any case. */
    method Drop(hresult: I32)
      modifies this`armed, process
      ensures !armed && process.owned == (old(process.owned) && !old(armed))
      ensures process.registered == if old(armed) && hresult >= 0 then None else old(process.registered)
    {
      if armed {
        var _ := process.UnregisterApplicationRestart(hresult);
        Disarm();
      }
    }

    /** On failure the destructor tries once more; Windows keeps the registration only if both calls fail. */
    method Unregister(hresult: I32, retry: I32) returns (r: Result<(), Error>)
      requires Armed()
      modifies this`armed, process
      ensures r == if hresult >= 0 then Ok(()) else Err(HResult(hresult))
      ensures !armed && !process.owned
      ensures process.registered == if hresult >= 0 || retry >= 0 then None else old(process.registered)
    {
      var ok := process.UnregisterApplicationRestart(hresult);
      if ok {
        Disarm();
        r := Ok(());
      } else {
        r := Err(HResult(hresult));
      }
      Drop(retry);
    }
  }

  method Register(process: Process, options: Options, hresult: I32) returns (r: Result<Registration, Error>)
    modifies process
    ensures r.Err? ==> process.owned == old(process.owned) && process.registered == old(process.registered)
    ensures
      if 0 in options.arguments || |options.arguments| > 1024 then r == Err(InvalidInput)
      else if old(process.owned) then r == Err(InUse)
      else if hresult < 0 then r == Err(HResult(hresult))
      else
        && r.Ok? && fresh(r.value) && r.value.process == process && r.value.options == options
        && r.value.Armed() && Has(process.registered, options)
  {
    if !ValidArguments(options.arguments) {
      return Err(InvalidInput);
    }
    if process.owned {
      return Err(InUse);
    }
    process.owned := true;
    var ok := process.RegisterApplicationRestart(options, hresult);
    if !ok {
      process.owned := false;
      return Err(HResult(hresult));
    }
    var registration := new Registration(process, options);
    return Ok(registration);
  }

  // ----- Every interleaving -----

  /** Where a thread is between its compare-exchange and its store. */
  datatype Stage =
    | Registering(options: Options)
    | Refused                                   // the native call failed, the lease is given back next
    | Resting(options: Options)                 // an armed value between two calls
    | Updating(options: Options, wanted: Options)
    | Updated(options: Options, wanted: Options) // Windows has the new options, the value not yet
    | Unregistering(options: Options)
    | Dropping(options: Options)
    | Disarming                                 // not armed any more, the lease is given back next

  /** `stale`: a best-effort attempt failed, and no native call succeeded since. */
  datatype State = State(owned: bool, registered: Option<Native>, stale: bool, holders: map<nat, Stage>)

  datatype Step =
    | Claim(thread: nat, options: Options)
    | RegisterReturns(thread: nat, ok: bool)
    | BeginUpdate(thread: nat, options: Options)
    | UpdateReturns(thread: nat, ok: bool)
    | StoreOptions(thread: nat)
    | BeginUnregister(thread: nat)
    | UnregisterReturns(thread: nat, ok: bool)
    | BeginDrop(thread: nat)
    | DropReturns(thread: nat, ok: bool)
    | Release(thread: nat)

  const INITIAL := State(false, None, false, map[])

  function StageOf(s: State, t: nat): Option<Stage> {
    if t in s.holders then Some(s.holders[t]) else None
  }

  predicate Enabled(s: State, step: Step) {
    match step
    case Claim(t, o) => t !in s.holders && ValidArguments(o.arguments) && !s.owned
    case RegisterReturns(t, _) => t in s.holders && s.holders[t].Registering?
    case BeginUpdate(t, o) => t in s.holders && s.holders[t].Resting? && ValidArguments(o.arguments)
    case UpdateReturns(t, _) => t in s.holders && s.holders[t].Updating?
    case StoreOptions(t) => t in s.holders && s.holders[t].Updated?
    case BeginUnregister(t) => t in s.holders && s.holders[t].Resting?
    case UnregisterReturns(t, _) => t in s.holders && s.holders[t].Unregistering?
    case BeginDrop(t) => t in s.holders && s.holders[t].Resting?
    case DropReturns(t, _) => t in s.holders && s.holders[t].Dropping?
    case Release(t) => t in s.holders && (s.holders[t].Refused? || s.holders[t].Disarming?)
  }

  function At(s: State, t: nat, stage: Stage): State {
    s.(holders := s.holders[t := stage])
  }

  function Next(s: State, step: Step): State
    requires Enabled(s, step)
  {
    match step
    case Claim(t, o) => At(s.(owned := true), t, Registering(o))
    case RegisterReturns(t, ok) =>
      var o := s.holders[t].options;
      if ok then At(s.(registered := Some(NativeOf(o)), stale := false), t, Resting(o)) else At(s, t, Refused)
    case BeginUpdate(t, o) => At(s, t, Updating(s.holders[t].options, o))
    case UpdateReturns(t, ok) =>
      var h := s.holders[t];
      if ok then At(s.(registered := Some(NativeOf(h.wanted))), t, Updated(h.options, h.wanted))
      else At(s, t, Resting(h.options))
    case StoreOptions(t) => At(s, t, Resting(s.holders[t].wanted))
    case BeginUnregister(t) => At(s, t, Unregistering(s.holders[t].options))
    case UnregisterReturns(t, ok) =>
      if ok then At(s.(registered := None), t, Disarming) else At(s, t, Dropping(s.holders[t].options))
    case BeginDrop(t) => At(s, t, Dropping(s.holders[t].options))
    case DropReturns(t, ok) =>
      At(if ok then s.(registered := None) else s.(stale := true), t, Disarming)
    case Release(t) => s.(owned := false, holders := s.holders - {t})
  }

  ghost predicate Run(steps: seq<Step>)
    decreases |steps|, 0
  {
    steps == [] || (Run(steps[..|steps| - 1]) && Enabled(After(steps[..|steps| - 1]), steps[|steps| - 1]))
  }

  ghost function After(steps: seq<Step>): State
    requires Run(steps)
    decreases |steps|, 1
  {
    if steps == [] then INITIAL else Next(After(steps[..|steps| - 1]), steps[|steps| - 1])
  }

  // ----- The invariant -----

  /** The flag is set exactly while one thread is between its compare-exchange and its store. */
  ghost predicate OneHolder(s: State) {
    && (s.owned <==> exists t: nat :: t in s.holders)
    && (forall t: nat, u: nat | t in s.holders && u in s.holders :: t == u)
  }

  /** What Windows has, seen from the holder's stage. */
  predicate RegistrationFits(stage: Stage, registered: Option<Native>, stale: bool) {
    match stage
    case Registering(_) => registered.Some? <==> stale
    case Refused => registered.Some? <==> stale
    case Disarming => registered.Some? <==> stale
    case Updated(_, wanted) => registered == Some(NativeOf(wanted)) && !stale
    case Resting(o) => registered == Some(NativeOf(o)) && !stale
    case Updating(o, _) => registered == Some(NativeOf(o)) && !stale
    case Unregistering(o) => registered == Some(NativeOf(o)) && !stale
    case Dropping(o) => registered == Some(NativeOf(o)) && !stale
  }

  ghost predicate Inv(s: State) {
    && OneHolder(s)
    && (forall t | t in s.holders :: RegistrationFits(s.holders[t], s.registered, s.stale))
    && (!s.owned ==> (s.registered.Some? <==> s.stale))
  }

  lemma StepKeeps(s: State, step: Step)
    requires Inv(s) && Enabled(s, step)
    ensures Inv(Next(s, step))
  {
    var t := Next(s, step);
    assert step.thread in s.holders || step.Claim?;
    if step.Release? {
      assert forall u: nat :: u !in t.holders;
    } else {
      assert step.thread in t.holders;
    }
  }

  lemma {:induction false} RunKeeps(steps: seq<Step>)
    requires Run(steps)
    ensures Inv(After(steps))
  {
    if steps != [] {
      RunKeeps(steps[..|steps| - 1]);
      StepKeeps(After(steps[..|steps| - 1]), steps[|steps| - 1]);
    }
  }

  /** Over every interleaving: one holder at most, and the flag says whether there is one. */
  lemma LeaseIsExclusive(steps: seq<Step>, t: nat, u: nat)
    requires Run(steps)
    ensures
      var s := After(steps);
      && (t in s.holders && u in s.holders ==> t == u)
      && (t in s.holders ==> s.owned)
      && (s.owned ==> exists v: nat :: v in s.holders)
      && (forall o: Options :: Enabled(s, Claim(t, o)) <==> 0 !in o.arguments && |o.arguments| <= 1024 && !s.owned)
  {
    RunKeeps(steps);
  }

  /** Nobody gives back a lease it does not hold: the release leaves no holder behind. */
  lemma ReleaseIsOwn(steps: seq<Step>, t: nat)
    requires Run(steps) && Enabled(After(steps), Release(t))
    ensures After(steps).owned && Next(After(steps), Release(t)).holders == map[]
  {
    RunKeeps(steps);
    var s := After(steps);
    assert forall u: nat :: u !in Next(s, Release(t)).holders;
  }

  /** Between two calls an armed value's options are the ones that Windows has. */
  lemma ArmedMatchesWindows(steps: seq<Step>, t: nat)
    requires Run(steps) && StageOf(After(steps), t).Some? && After(steps).holders[t].Resting?
    ensures Has(After(steps).registered, After(steps).holders[t].options)
  {
    RunKeeps(steps);
  }

  /** While nobody holds the lease, Windows has a registration exactly if a best-effort attempt left one. */
  lemma FreeMeansUnregistered(steps: seq<Step>)
    requires Run(steps) && !After(steps).owned
    ensures After(steps).registered.Some? <==> After(steps).stale
  {
    RunKeeps(steps);
  }

  // ----- What a holder can do, and what it ends up with -----

  /** Whatever Windows answers, the holder can go on; an armed value can be updated with valid options, or given up. */
  lemma HolderCanMove(s: State, t: nat, ok: bool, o: Options)
    requires t in s.holders
    ensures
      match s.holders[t]
      case Registering(_) => Enabled(s, RegisterReturns(t, ok))
      case Refused => Enabled(s, Release(t))
      case Resting(_) =>
        && Enabled(s, BeginUnregister(t)) && Enabled(s, BeginDrop(t))
        && (Enabled(s, BeginUpdate(t, o)) <==> 0 !in o.arguments && |o.arguments| <= 1024)
      case Updating(_, _) => Enabled(s, UpdateReturns(t, ok))
      case Updated(_, _) => Enabled(s, StoreOptions(t))
      case Unregistering(_) => Enabled(s, UnregisterReturns(t, ok))
      case Dropping(_) => Enabled(s, DropReturns(t, ok))
      case Disarming => Enabled(s, Release(t))
  {}

  /** The options that thread `t` asked for last, and those of its last call that Windows took. */
  datatype Asked = Asked(wanted: Option<Options>, accepted: Option<Options>)

  function AskedNext(before: Asked, step: Step, t: nat): Asked {
    match step
    case Claim(u, o) => if u == t then before.(wanted := Some(o)) else before
    case BeginUpdate(u, o) => if u == t then before.(wanted := Some(o)) else before
    case RegisterReturns(u, ok) => if u == t && ok then before.(accepted := before.wanted) else before
    case UpdateReturns(u, ok) => if u == t && ok then before.(accepted := before.wanted) else before
    case _ => before
  }

  function AskedOf(steps: seq<Step>, t: nat): Asked {
    if steps == [] then Asked(None, None)
    else AskedNext(AskedOf(steps[..|steps| - 1], t), steps[|steps| - 1], t)
  }

  predicate AskedFits(stage: Stage, asked: Asked) {
    match stage
    case Registering(o) => asked.wanted == Some(o)
    case Resting(o) => asked.accepted == Some(o)
    case Updating(o, wanted) => asked == Asked(Some(wanted), Some(o))
    case Updated(_, wanted) => asked.accepted == Some(wanted)
    case _ => true
  }

  lemma StepKeepsAsked(s: State, step: Step, t: nat, before: Asked)
    requires (t in s.holders ==> AskedFits(s.holders[t], before)) && Enabled(s, step)
    ensures t in Next(s, step).holders ==> AskedFits(Next(s, step).holders[t], AskedNext(before, step, t))
  {}

  /** An armed value has the options of the last call that Windows took: a failed update leaves it as it was. */
  lemma {:induction false} OptionsAreAccepted(steps: seq<Step>, t: nat)
    requires Run(steps)
    ensures t in After(steps).holders ==> AskedFits(After(steps).holders[t], AskedOf(steps, t))
  {
    if steps != [] {
      hide AskedFits, AskedNext, Next, Enabled;
      var init := steps[..|steps| - 1];
      OptionsAreAccepted(init, t);
      StepKeepsAsked(After(init), steps[|steps| - 1], t, AskedOf(init, t));
    }
  }

  /** The value at thread `t` is armed: it is at rest, or inside an update. */
  predicate ArmedAt(s: State, t: nat) {
    t in s.holders && (s.holders[t].Resting? || s.holders[t].Updating? || s.holders[t].Updated?)
  }

  lemma DisarmedByItself(s: State, step: Step, t: nat)
    requires ArmedAt(s, t) && Enabled(s, step) && !ArmedAt(Next(s, step), t)
    ensures step == BeginUnregister(t) || step == BeginDrop(t)
  {}

  /** A value stays armed until it is unregistered or dropped; a failed update does not disarm it. */
  lemma {:induction false} ArmedUntilGivenUp(steps: seq<Step>, i: nat, t: nat) returns (k: nat)
    requires Run(steps) && i < |steps| && Run(steps[..i]) && ArmedAt(After(steps[..i]), t) && !ArmedAt(After(steps), t)
    ensures i <= k < |steps| && (steps[k] == BeginUnregister(t) || steps[k] == BeginDrop(t))
  {
    hide ArmedAt, Next, Enabled;
    k := |steps| - 1;
    var init := steps[..k];
    assert init[..i] == steps[..i];
    if ArmedAt(After(init), t) {
      DisarmedByItself(After(init), steps[k], t);
    } else {
      k := ArmedUntilGivenUp(init, i, t);
    }
  }

  // ----- The lease comes back -----

  function StageRank(stage: Stage): nat {
    match stage
    case Updating(_, _) => 7
    case Updated(_, _) => 6
    case Registering(_) => 6
    case Resting(_) => 5
    case Unregistering(_) => 4
    case Dropping(_) => 3
    case Refused => 1
    case Disarming => 1
  }

  /** How many steps the holder has left at most, if it asks for nothing new; there is one holder at most. */
  ghost function Work(s: State): nat
    requires Inv(s)
  {
    if t: nat :| t in s.holders then StageRank(s.holders[t]) else 0
  }

  predicate NewWork(step: Step) {
    step.Claim? || step.BeginUpdate?
  }

  lemma StepUsesWork(s: State, step: Step)
    requires Inv(s) && Enabled(s, step) && !NewWork(step)
    ensures Inv(Next(s, step)) && Work(Next(s, step)) < Work(s)
  {
    StepKeeps(s, step);
    assert step.thread in s.holders;
    assert forall t | t in Next(s, step).holders :: t == step.thread;
  }

  /**
    Once nothing is registered or updated any more at most `Work` steps follow, and when none is possible the
    lease is free: every armed value was given up, after one native attempt or two.
   */
  lemma {:induction false} LeaseComesBack(steps: seq<Step>, more: seq<Step>)
    requires Run(steps) && Run(steps + more) && (forall k | 0 <= k < |more| :: !NewWork(more[k]))
    ensures Inv(After(steps)) && Inv(After(steps + more))
    ensures |more| + Work(After(steps + more)) <= Work(After(steps)) <= 7
    ensures (forall step | Enabled(After(steps + more), step) :: NewWork(step)) ==>
              !After(steps + more).owned && After(steps + more).holders == map[]
    decreases |more|
  {
    RunKeeps(steps);
    RunKeeps(steps + more);
    if more == [] {
      assert steps + more == steps;
    } else {
      var init, step := more[..|more| - 1], more[|more| - 1];
      assert (steps + more)[..|steps + more| - 1] == steps + init && (steps + more)[|steps + more| - 1] == step;
      LeaseComesBack(steps, init);
      StepUsesWork(After(steps + init), step);
    }
    if After(steps + more).holders != map[] {
      var step := HolderMoves(After(steps + more));
    }
  }

  lemma HolderMoves(s: State) returns (step: Step)
    requires s.holders != map[]
    ensures Enabled(s, step) && !NewWork(step)
  {
    var t: nat :| t in s.holders;
    step := match s.holders[t]
      case Registering(_) => RegisterReturns(t, true)
      case Refused => Release(t)
      case Resting(_) => BeginDrop(t)
      case Updating(_, _) => UpdateReturns(t, true)
      case Updated(_, _) => StoreOptions(t)
      case Unregistering(_) => UnregisterReturns(t, true)
      case Dropping(_) => DropReturns(t, true)
      case Disarming => Release(t);
  }
}
