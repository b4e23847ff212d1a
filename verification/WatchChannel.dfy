/**
  Asynchronous progress: a watch channel that keeps only the latest sample. The worker's closure replaces the
  value; any number of receivers wait for a version they have not seen and then read whatever is there. A
  receive is two actions, and the sender can move in between.
 */
module WatchChannel {
  import opened NativeTypes
  import opened Progress

  /**
    `seen` is the version that the receiver has marked, `received` are those its own receives returned,
    `inherited` is the last one that the receiver it was cloned from had returned by then, `raced` says that the
    latest of these was newer than the mark. `observed` also has what was peeked at, and what was observed
    before cloning. Versions count samples; the initial `None` is version 0.
   */
  datatype Receiver = Receiver(
    seen: nat, marked: bool, raced: bool, received: seq<nat>, inherited: nat, observed: seq<nat>)
  {
    /** The version that was returned last. */
    function Last(): nat {
      if received == [] then inherited else received[|received| - 1]
    }
  }

  datatype State = State(sent: seq<U32>, open: bool, receivers: map<nat, Receiver>)

  datatype Step =
    | Send(sample: U32)
    | Close                          // the operation is over and its sender dropped
    | Changed(receiver: nat)         // the wait of `recv` is over; the latest version is marked
    | Borrow(receiver: nat)          // `recv` reads the value and returns it
    | Peek(receiver: nat)
    | Clone(receiver: nat, copy: nat)

  const INITIAL := State([], true, map[0 := Receiver(0, false, false, [], 0, [])])

  predicate Waiting(s: State, r: nat) {
    r in s.receivers && !s.receivers[r].marked
  }

  predicate Enabled(s: State, step: Step) {
    match step
    case Send(v) => s.open && Strict(s.sent + [v]) // the progress gate lets nothing else through
    case Close => s.open
    case Changed(r) => Waiting(s, r) && s.receivers[r].seen < |s.sent|
    case Borrow(r) => r in s.receivers && s.receivers[r].marked
    case Peek(r) => Waiting(s, r) && s.sent != []
    case Clone(r, c) => Waiting(s, r) && c !in s.receivers
  }

  /** `recv` returns None. */
  predicate Ends(s: State, r: nat) {
    Waiting(s, r) && s.receivers[r].seen == |s.sent| && !s.open
  }

  function Put(s: State, r: nat, receiver: Receiver): State {
    s.(receivers := s.receivers[r := receiver])
  }

  /** The receiver after `recv` has read version `count`. */
  function Borrowed(count: nat, r: Receiver): Receiver {
    r.(marked := false, raced := count > r.seen, received := r.received + [count], observed := r.observed + [count])
  }

  function Next(s: State, step: Step): State
    requires Enabled(s, step)
  {
    match step
    case Send(v) => s.(sent := s.sent + [v])
    case Close => s.(open := false)
    case Changed(r) => Put(s, r, s.receivers[r].(seen := |s.sent|, marked := true))
    case Borrow(r) => Put(s, r, Borrowed(|s.sent|, s.receivers[r]))
    case Peek(r) => Put(s, r, s.receivers[r].(observed := s.receivers[r].observed + [|s.sent|]))
    case Clone(r, c) => Put(s, c, s.receivers[r].(received := [], inherited := s.receivers[r].Last()))
  }

  ghost predicate Run(steps: seq<Step>)
    decreases |steps|, 0
  {
    steps == [] || (Run(steps[..|steps| - 1]) && Enabled(After(steps[..|steps| - 1]), steps[|steps| - 1]))
  }

  ghost function After(steps: seq<Step>): State
    requires Run(steps)
    decreases |steps|, 1
  {
    if steps == [] then INITIAL else Next(After(steps[..|steps| - 1]), steps[|steps| - 1])
  }

  // ----- The invariant -----

  ghost predicate ReceiverAgrees(count: nat, r: Receiver) {
    && (forall i | 0 <= i < |r.observed| :: 0 < r.observed[i] <= count)
    && (forall i, j | 0 <= i < j < |r.observed| :: r.observed[i] <= r.observed[j])
    && (forall i | 0 <= i < |r.received| :: r.inherited <= r.received[i])
    && (forall i, j | 0 <= i < j < |r.received| :: r.received[i] <= r.received[j])
    && r.seen <= count && r.Last() <= count
    && (r.marked ==> 0 < r.seen && (!r.raced ==> r.Last() < r.seen))
    && (!r.marked ==> r.seen <= r.Last() && (r.raced <==> r.seen < r.Last()))
  }

  ghost predicate Inv(s: State) {
    && Strict(s.sent)
    && forall r | r in s.receivers :: ReceiverAgrees(|s.sent|, s.receivers[r])
  }

  lemma SendAgrees(count: nat, r: Receiver)
    requires ReceiverAgrees(count, r)
    ensures ReceiverAgrees(count + 1, r)
  {}

  lemma BorrowAgrees(count: nat, r: Receiver)
    requires ReceiverAgrees(count, r) && r.marked
    ensures ReceiverAgrees(count, Borrowed(count, r))
  {}

  /** The other actions of a receiver. */
  lemma ReceiverStepsAgree(count: nat, r: Receiver)
    requires ReceiverAgrees(count, r) && !r.marked
    ensures r.seen < count ==> ReceiverAgrees(count, r.(seen := count, marked := true))
    ensures count > 0 ==> ReceiverAgrees(count, r.(observed := r.observed + [count]))
    ensures ReceiverAgrees(count, r.(received := [], inherited := r.Last()))
  {}

  lemma StepKeeps(s: State, step: Step)
    requires Inv(s) && Enabled(s, step)
    ensures Inv(Next(s, step))
  {
    hide ReceiverAgrees;
    match step {
      case Send(_) =>
        forall r | r in s.receivers ensures ReceiverAgrees(|s.sent| + 1, s.receivers[r]) {
          SendAgrees(|s.sent|, s.receivers[r]);
        }
      case Close =>
      case Borrow(r) => BorrowAgrees(|s.sent|, s.receivers[r]);
      case _ => ReceiverStepsAgree(|s.sent|, s.receivers[step.receiver]);
    }
  }

  lemma {:induction false} RunKeeps(steps: seq<Step>)
    requires Run(steps)
    ensures Inv(After(steps))
  {
    if steps != [] {
      RunKeeps(steps[..|steps| - 1]);
      StepKeeps(After(steps[..|steps| - 1]), steps[|steps| - 1]);
    }
  }

  // ----- Every read is current -----

  /** What the sender delivered. */
  function SendsOf(steps: seq<Step>): seq<U32> {
    if steps == [] then []
    else
      var before := SendsOf(steps[..|steps| - 1]);
      match steps[|steps| - 1]
      case Send(v) => before + [v]
      case _ => before
  }

  /**
    The versions that were current when `r` read: at its own receives, or at all reads, those included that were
    made before cloning.
   */
  function ReadsOf(steps: seq<Step>, r: nat, all: bool): seq<nat> {
    if steps == [] then []
    else
      var init := steps[..|steps| - 1];
      var before := ReadsOf(init, r, all);
      match steps[|steps| - 1]
      case Borrow(q) => if q == r then before + [|SendsOf(init)|] else before
      case Peek(q) => if q == r && all then before + [|SendsOf(init)|] else before
      case Clone(q, c) => if c != r then before else if all then ReadsOf(init, q, all) else []
      case _ => before
  }

  /** Every receive and every peek gives the sample that is current at that moment; closing is for good. */
  lemma {:induction false} ReadsAreCurrent(steps: seq<Step>, r: nat)
    requires Run(steps)
    ensures
      var s := After(steps);
      && s.sent == SendsOf(steps) && (s.open <==> Close !in steps)
      && (r in s.receivers ==>
            s.receivers[r].received == ReadsOf(steps, r, false) && s.receivers[r].observed == ReadsOf(steps, r, true))
  {
    if steps != [] {
      var init, step := steps[..|steps| - 1], steps[|steps| - 1];
      assert steps == init + [step];
      ReadsAreCurrent(init, r);
      if step.Clone? {
        ReadsAreCurrent(init, step.receiver);
      }
    }
  }

  // ----- What receivers see -----

  /** The samples behind the versions a receiver, or the one it was cloned from, was given. */
  function Samples(sent: seq<U32>, observed: seq<nat>): (samples: seq<U32>)
    requires forall i | 0 <= i < |observed| :: 0 < observed[i] <= |sent|
    ensures |samples| == |observed|
  {
    seq(|observed|, i requires 0 <= i < |observed| => sent[observed[i] - 1])
  }

  /** Every receiver is given samples that were delivered, and never an older one after a newer one. */
  lemma NeverDecreasing(steps: seq<Step>, r: nat)
    requires Run(steps) && r in After(steps).receivers
    ensures
      var s := After(steps);
      && (forall i | 0 <= i < |s.receivers[r].observed| :: 0 < s.receivers[r].observed[i] <= |s.sent|)
      && var given := Samples(s.sent, s.receivers[r].observed);
      && (forall i, j | 0 <= i < j < |s.receivers[r].received| :: s.receivers[r].received[i] <= s.receivers[r].received[j])
      && (forall v | v in given :: v in s.sent)
      && (forall i, j | 0 <= i < j < |given| :: given[i] <= given[j])
  {
    RunKeeps(steps);
  }

  /**
    When `recv` returns None, the last delivered sample was the last that a receive returned; and if any was
    delivered that was not returned before cloning, it was this receiver's own.
   */
  lemma LastBeforeNone(steps: seq<Step>, r: nat)
    requires Run(steps) && Ends(After(steps), r)
    ensures
      var s := After(steps);
      var receiver := s.receivers[r];
      && receiver.Last() == |s.sent|
      && (receiver.inherited < |s.sent| ==>
            receiver.received != [] && receiver.received[|receiver.received| - 1] == |s.sent|)
  {
    RunKeeps(steps);
  }

  /**
    A sample that was not marked yet can always be received, after the sender is gone too; so can its absence.
    Between two receives a receiver can be cloned and peeked at; the sender can send until it closes.
   */
  lemma NeverHangs(steps: seq<Step>, r: nat)
    requires Run(steps) && r in After(steps).receivers
    ensures
      var s := After(steps);
      && (s.receivers[r].marked ==> Enabled(s, Borrow(r)))
      && (!s.receivers[r].marked && s.receivers[r].seen < |s.sent| ==> Enabled(s, Changed(r)))
      && (!s.receivers[r].marked && !s.open ==> Enabled(s, Changed(r)) || Ends(s, r))
      && (Enabled(s, Close) <==> s.open)
      && (forall v: U32 :: Enabled(s, Send(v)) <==> s.open && Strict(s.sent + [v]))
      && (forall c: nat :: Enabled(s, Clone(r, c)) <==> !s.receivers[r].marked && c !in s.receivers)
      && (!s.receivers[r].marked && s.sent != [] ==> Enabled(s, Peek(r)))
  {
    RunKeeps(steps);
  }

  /** Once the sender has closed, a receiver is given at most one more sample. */
  lemma OneMoreThenNone(steps: seq<Step>, r: nat)
    requires Run(steps) && !After(steps).open && Waiting(After(steps), r)
    ensures
      var s := After(steps);
      Ends(s, r) || (Enabled(s, Changed(r)) && Ends(Next(Next(s, Changed(r)), Borrow(r)), r))
  {
    RunKeeps(steps);
  }

  /**
    If nothing was sent since a receive, the next one does not wait exactly if that receive raced past its
    mark; it then repeats the sample.
   */
  lemma RepeatsExactly(steps: seq<Step>, r: nat)
    requires Run(steps) && Waiting(After(steps), r) && After(steps).receivers[r].Last() == |After(steps).sent|
    ensures
      var s := After(steps);
      && (Enabled(s, Changed(r)) <==> s.receivers[r].raced)
      && (s.receivers[r].raced ==>
            var t := Next(Next(s, Changed(r)), Borrow(r));
            r in t.receivers && t.receivers[r].received == s.receivers[r].received + [s.receivers[r].Last()])
  {
    RunKeeps(steps);
  }

  /** A receive that did not race is followed by a newer sample only. */
  lemma NewerAfterNoRace(steps: seq<Step>, r: nat)
    requires Run(steps) && Enabled(After(steps), Borrow(r)) && !After(steps).receivers[r].raced
    ensures After(steps).receivers[r].Last() < |After(steps).sent|
  {
    RunKeeps(steps);
  }

  lemma RunSnoc(steps: seq<Step>, s: State, step: Step)
    requires Run(steps) && After(steps) == s && Enabled(s, step)
    ensures Run(steps + [step]) && After(steps + [step]) == Next(s, step)
  {
    assert (steps + [step])[..|steps|] == steps;
  }

  /** So `recv` does not always give a newer sample: here it gives the second one twice. */
  lemma RecvCanRepeat() returns (steps: seq<Step>)
    ensures Run(steps) && After(steps).sent == [10, 20]
    ensures 0 in After(steps).receivers && After(steps).receivers[0].received == [2, 2]
  {
    hide Run, After;
    var a := Next(INITIAL, Send(10));
    RunSnocFromStart();
    var b := Next(a, Changed(0));
    RunSnoc([Send(10)], a, Changed(0));
    var c := Next(b, Send(20));
    RunSnoc([Send(10)] + [Changed(0)], b, Send(20));
    var d := Next(c, Borrow(0));
    RunSnoc([Send(10)] + [Changed(0)] + [Send(20)], c, Borrow(0));
    var e := Next(d, Changed(0));
    RunSnoc([Send(10)] + [Changed(0)] + [Send(20)] + [Borrow(0)], d, Changed(0));
    steps := [Send(10)] + [Changed(0)] + [Send(20)] + [Borrow(0)] + [Changed(0)] + [Borrow(0)];
    RunSnoc([Send(10)] + [Changed(0)] + [Send(20)] + [Borrow(0)] + [Changed(0)], e, Borrow(0));
  }

  lemma RunSnocFromStart()
    ensures Run([Send(10)]) && After([Send(10)]) == Next(INITIAL, Send(10))
  {
    assert Enabled(INITIAL, Send(10));
    RunSnoc([], INITIAL, Send(10));
    assert [] + [Send(10)] == [Send(10)];
  }
}
