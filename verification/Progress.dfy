/**
  The progress callback of one native operation: the strictness gate between Windows and the caller's
  closure, the capture of a panic, and the outcome that is retained. The process-wide slot that the
  trampoline reads is here only free or taken; CallbackLease shows that every operation under its
  concurrent protocol ends as it does here, the slot being taken exactly if the operation was refused.
 */
module Progress {
  import opened NativeTypes
  import opened Wrappers

  type Percent = p: int | 0 <= p <= 100

  function TryFromNative(native: U32): Option<Percent> {
    if native <= 100 then Some(native) else None
  }

  // ----- What Windows promises -----

  /** Every sample is a percentage and greater than the one before it. */
  predicate Strict(samples: seq<U32>) {
    && (forall i | 0 <= i < |samples| :: samples[i] <= 100)
    && (forall i, j | 0 <= i < j < |samples| :: samples[i] < samples[j])
  }

  /** How many samples the longest strict prefix has. */
  function StrictPrefix(samples: seq<U32>): (k: nat)
    ensures k <= |samples| && Strict(samples[..k])
    ensures forall j | k < j <= |samples| :: !Strict(samples[..j])
  {
    if samples == [] then 0
    else
      var init := samples[..|samples| - 1];
      var k := StrictPrefix(init);
      assert forall j | 0 <= j <= |init| :: init[..j] == samples[..j];
      assert k < |init| ==> !Strict(init[..|init|]) && init[..|init|] == init;
      assert samples[..|samples|] == samples;
      if k == |init| && Strict(samples) then |samples| else k
  }

  lemma {:induction false} StrictIsShort(samples: seq<U32>)
    requires Strict(samples)
    ensures |samples| <= 101
  {
    if |samples| > 0 {
      LastIsLarge(samples);
    }
  }

  /** The bound is reached: Windows may report every percentage. */
  lemma EveryPercentageIsStrict()
    ensures |EVERY_PERCENTAGE| == 101 && StrictPrefix(EVERY_PERCENTAGE) == 101
    ensures EVERY_PERCENTAGE[0] == 0 && EVERY_PERCENTAGE[100] == 100
  {
    assert Strict(EVERY_PERCENTAGE);
    assert EVERY_PERCENTAGE[..101] == EVERY_PERCENTAGE;
  }

  const EVERY_PERCENTAGE: seq<U32> := seq(101, i => i)

  lemma {:induction false} LastIsLarge(samples: seq<U32>)
    requires Strict(samples) && |samples| > 0
    ensures samples[|samples| - 1] >= |samples| - 1
  {
    if |samples| > 1 {
      LastIsLarge(samples[..|samples| - 1]);
    }
  }

  // ----- The callback -----

  /** What the caller's closure does at its n-th call: true if it panics. */
  type Closure = nat -> bool

  /** The closure's first panic among its first `n` calls. */
  predicate PanicsWithin(user: Closure, n: nat) {
    exists i: nat | i < n :: user(i)
  }

  class ProgressCallback {
    const user: Closure
    var last: Option<Percent>     // the gate's memory
    var malformed: bool
    var panicked: bool            // CallbackState::panic holds a payload
    var delivered: seq<U32>       // what the closure was called with

    constructor (user: Closure)
      ensures this.user == user && Saw([])
      ensures !malformed && !panicked && delivered == []
    {
      this.user := user;
      last, malformed, panicked, delivered := None, false, false, [];
    }

    /** The state is the one after Windows reported `samples`. */
    ghost predicate Saw(samples: seq<U32>)
      reads this
    {
      var k := |delivered|;
      && k <= |samples| && delivered == samples[..k] && Strict(delivered)
      && last == (if k == 0 then None else Some(delivered[k - 1]))
      && (panicked <==> PanicsWithin(user, k))
      && (panicked ==> !PanicsWithin(user, k - 1))
      && (malformed <==> !panicked && k < |samples|)
      && (malformed ==> !Strict(samples[..k + 1]))
    }

    method DeliverProgress(native: U32, ghost samples: seq<U32>) returns (panics: bool)
      requires Saw(samples) && !panicked
      modifies this`last, this`malformed, this`delivered
      ensures
        var good := !old(malformed) && Strict(old(delivered) + [native]);
        && delivered == (if good then old(delivered) + [native] else old(delivered))
        && last == (if good then Some(native) else old(last))
        && malformed == !good
        && panics == (good && user(|old(delivered)|))
    {
      panics := false;
      if malformed {
        return;
      }
      var progress := TryFromNative(native);
      if progress.None? {
        assert !Strict(delivered + [native]) by {
          assert (delivered + [native])[|delivered|] == native;
        }
        malformed := true;
        return;
      }
      if last.Some? && progress.value <= last.value {
        assert !Strict(delivered + [native]) by {
          assert (delivered + [native])[|delivered| - 1] >= (delivered + [native])[|delivered|];
        }
        malformed := true;
        return;
      }
      assert Strict(delivered + [native]);
      last := Some(progress.value);
      panics := user(|delivered|);
      delivered := delivered + [progress.value];
    }

    /** call_callback, on the operation's own state. */
    method CallCallback(native: U32, ghost samples: seq<U32>)
      requires Saw(samples)
      modifies this
      ensures Saw(samples + [native])
      ensures old(panicked) ==> delivered == old(delivered) && malformed == old(malformed)
    {
      if panicked {
        assert (samples + [native])[..|delivered|] == samples[..|delivered|];
        return;
      }
      ghost var k := |delivered|;
      assert !malformed ==> samples[..k] == samples && (samples + [native])[..k + 1] == delivered + [native];
      assert malformed ==> (samples + [native])[..k + 1] == samples[..k + 1];
      assert (samples + [native])[..k] == samples[..k];
      var panics := DeliverProgress(native, samples);
      if panics {
        panicked := true;
      }
    }
  }

  datatype CallbackRun =
    | NotStarted           // the callback slot is taken: CallbackInUse, without a native call
    | Unwound              // the closure panicked; the panic resumes after the native call
    | Finished(code: U32)

  /** One native operation with a callback: Windows reports `samples` one after the other, then returns. */
  method RunWithCallback(slotTaken: bool, callback: ProgressCallback, samples: seq<U32>, code: U32)
    returns (run: CallbackRun)
    requires callback.Saw([])
    modifies callback
    ensures run == RunOf(slotTaken, callback.user, samples, code)
    ensures callback.delivered == (if slotTaken then [] else samples[..CallsOf(callback.user, samples)])
    ensures !slotTaken && !run.Unwound? ==> callback.malformed == !Strict(samples)
  {
    if slotTaken {
      return NotStarted;
    }
    for i := 0 to |samples|
      invariant callback.Saw(samples[..i])
    {
      assert samples[..i + 1] == samples[..i] + [samples[i]];
      callback.CallCallback(samples[i], samples[..i]);
    }
    assert samples[..|samples|] == samples;
    SawExactly(callback, samples);
    if callback.panicked {
      return Unwound;
    }
    return Finished(code);
  }

  /** How many calls the closure gets: the strict prefix, cut after the first panic. */
  function CallsOf(user: Closure, samples: seq<U32>): (n: nat)
    ensures n <= StrictPrefix(samples) && n <= 101
    ensures forall i: nat | i + 1 < n :: !user(i)
    ensures n < StrictPrefix(samples) ==> n > 0 && user(n - 1)
  {
    StrictIsShort(samples[..StrictPrefix(samples)]);
    FirstPanic(user, StrictPrefix(samples))
  }

  function FirstPanic(user: Closure, limit: nat): (n: nat)
    ensures n <= limit
    ensures forall i: nat | i + 1 < n :: !user(i)
    ensures n < limit ==> n > 0 && user(n - 1)
  {
    if limit == 0 then 0
    else
      var n := FirstPanic(user, limit - 1);
      if n == limit - 1 && (n == 0 || !user(n - 1)) then limit else n
  }

  function RunOf(slotTaken: bool, user: Closure, samples: seq<U32>, code: U32): CallbackRun {
    if slotTaken then NotStarted
    else if PanicsWithin(user, StrictPrefix(samples)) then Unwound
    else Finished(code)
  }

  /** The state after all samples is determined by them. */
  lemma SawExactly(callback: ProgressCallback, samples: seq<U32>)
    requires callback.Saw(samples)
    ensures |callback.delivered| == CallsOf(callback.user, samples)
    ensures callback.panicked <==> PanicsWithin(callback.user, StrictPrefix(samples))
    ensures !callback.panicked ==> callback.malformed == !Strict(samples)
  {
    var k, s := |callback.delivered|, StrictPrefix(samples);
    assert samples[..|samples|] == samples;
    assert k <= s;
    if !callback.panicked {
      StrictCut(samples, if k < s then k + 1 else s, s);
    }
  }

  lemma StrictCut(samples: seq<U32>, j: nat, k: nat)
    requires j <= k <= |samples| && Strict(samples[..k])
    ensures Strict(samples[..j])
  {
    assert forall i | 0 <= i < j :: samples[..k][i] == samples[..j][i];
  }

  // ----- The retained outcome -----

  datatype Fault = Native(code: U32) | MalformedProgress
  datatype OperationOutcome = Succeeded | Failed(fault: Fault)

  /** What the typestate keeps of an operation that started and did not panic. */
  function OutcomeOf(code: U32, malformed: bool): OperationOutcome {
    if code != ERROR_SUCCESS then Failed(Native(code))
    else if malformed then Failed(MalformedProgress)
    else Succeeded
  }

  /** The operation succeeded exactly if Windows said so and every sample was strict; a native error wins. */
  lemma OutcomeExact(user: Closure, samples: seq<U32>, code: U32, n: nat)
    requires RunOf(false, user, samples, code) == Finished(code) && n == CallsOf(user, samples)
    ensures
      var outcome := OutcomeOf(code, !Strict(samples));
      && (outcome == Succeeded <==> code == ERROR_SUCCESS && n == |samples|)
      && (code != ERROR_SUCCESS ==> outcome == Failed(Native(code)))
      && (outcome == Failed(MalformedProgress) <==> code == ERROR_SUCCESS && n < |samples|)
  {
    assert samples[..|samples|] == samples;
    assert n == StrictPrefix(samples);
  }
}
