/**
  The language of native calls on one session key. A trace lists the calls in the order in which they are
  issued; calls that may not overlap have a begin and a return event.
 */
module SessionTrace {
  datatype EndKind =
    | Explicit // SessionHandle::end
    | Final    // the destructor of the last owner

  datatype Event =
    | Query                        // RmRegisterResources, RmGetList and the filter calls
    | Shutdown                     // RmShutdown is issued
    | Restart                      // RmRestart is issued
    | RestartUnwound               // no native call: the callback of an explicit restart panicked
    | LeftStopped                  // no native call: leave_stopped opted out of the restart
    | CancelBegin(thread: nat)
    | CancelReturn(thread: nat)
    | EndBegin(kind: EndKind)
    | EndReturn(kind: EndKind, ok: bool)

  /** How often `e` happened. */
  function Times(past: seq<Event>, e: Event): nat {
    if past == [] then 0
    else Times(past[..|past| - 1], e) + if past[|past| - 1] == e then 1 else 0
  }

  /** How often each event happened so far. */
  type Counts = Event -> nat

  function CountsOf(trace: seq<Event>): Counts {
    (e: Event) => Times(trace, e)
  }

  predicate Has(n: Counts, e: Event) {
    n(e) > 0
  }

  /** The key is gone: an end call succeeded, or the last owner made its one attempt. */
  predicate Closed(n: Counts) {
    || Has(n, EndReturn(Explicit, true))
    || Has(n, EndReturn(Final, true)) || Has(n, EndReturn(Final, false))
  }

  /** RmEndSession is running. */
  predicate Ending(n: Counts) {
    EndingBy(n, Explicit) || EndingBy(n, Final)
  }

  predicate EndingBy(n: Counts, kind: EndKind) {
    n(EndBegin(kind)) > n(EndReturn(kind, true)) + n(EndReturn(kind, false))
  }

  /** RmCancelCurrentTask is running. */
  ghost predicate Cancelling(n: Counts) {
    exists t: nat :: n(CancelBegin(t)) > n(CancelReturn(t))
  }

  predicate EndTried(n: Counts) {
    Has(n, EndBegin(Explicit)) || Has(n, EndBegin(Final))
  }

  /** Whether `e` may follow a past that happened as often as `n` says. */
  ghost predicate Allowed(n: Counts, e: Event) {
    match e
    case Query => !Closed(n) && !Ending(n)
    case Shutdown => !Has(n, Shutdown) && !EndTried(n)
    case Restart =>
      // After the shutdown, before any end; a second time only if the first one's callback panicked.
      && Has(n, Shutdown) && !Has(n, LeftStopped) && !EndTried(n)
      && n(Restart) == n(RestartUnwound) <= 1
    case RestartUnwound => n(Restart) == 1 && !Has(n, RestartUnwound) && !EndTried(n)
    case LeftStopped => Has(n, Shutdown) && !Has(n, Restart) && !Has(n, LeftStopped) && !EndTried(n)
    case CancelBegin(t) => !Closed(n) && !Ending(n) && !Cancelling(n)
    case CancelReturn(t) => n(CancelBegin(t)) == n(CancelReturn(t)) + 1
    case EndBegin(kind) =>
      && !Has(n, EndBegin(kind)) && !Has(n, EndBegin(Final))
      && !Closed(n) && !Ending(n) && !Cancelling(n)
      && (Has(n, Shutdown) ==> Has(n, Restart) || Has(n, LeftStopped))
    case EndReturn(kind, _) => EndingBy(n, kind)
  }

  /** Every event of the trace was allowed when it happened. */
  ghost predicate Disciplined(trace: seq<Event>) {
    trace == [] ||
    var init := trace[..|trace| - 1];
    Disciplined(init) && Allowed(CountsOf(init), trace[|trace| - 1])
  }

  lemma DisciplinedSnoc(trace: seq<Event>, e: Event)
    ensures Disciplined(trace + [e]) <==> Disciplined(trace) && Allowed(CountsOf(trace), e)
  {
    assert (trace + [e])[..|trace|] == trace;
  }

  lemma {:induction false} DisciplinedAt(trace: seq<Event>, n: nat)
    requires Disciplined(trace) && n <= |trace|
    ensures Disciplined(trace[..n])
    ensures n < |trace| ==> Allowed(CountsOf(trace[..n]), trace[n])
    decreases |trace|
  {
    if n == |trace| {
      assert trace[..n] == trace;
    } else if n < |trace| - 1 {
      var init := trace[..|trace| - 1];
      DisciplinedAt(init, n);
      assert init[..n] == trace[..n];
    }
  }

  lemma TimesSnoc(trace: seq<Event>, e: Event)
    ensures forall x :: Times(trace + [e], x) == Times(trace, x) + if x == e then 1 else 0
  {
    assert (trace + [e])[..|trace|] == trace;
  }

  // ----- What the discipline means for two events of one trace -----

  lemma SplitAt(trace: seq<Event>, i: nat, j: nat)
    requires i < j <= |trace|
    ensures Has(CountsOf(trace[..j]), trace[i])
  {
    Happened(trace[..j], i);
  }

  lemma {:induction false} Happened(past: seq<Event>, i: nat)
    requires i < |past|
    ensures Has(CountsOf(past), past[i])
    decreases |past|
  {
    if i < |past| - 1 {
      Happened(past[..|past| - 1], i);
    }
  }

  lemma {:induction false} WhenHappened(past: seq<Event>, e: Event) returns (i: nat)
    requires Has(CountsOf(past), e)
    ensures i < |past| && past[i] == e
    decreases |past|
  {
    i := |past| - 1;
    if past[i] != e {
      i := WhenHappened(past[..i], e);
    }
  }

  lemma Earlier(trace: seq<Event>, e: Event, i: nat, j: nat)
    requires i <= |trace| && j <= |trace|
    ensures i <= j && Has(CountsOf(trace[..i]), e) ==> Has(CountsOf(trace[..j]), e)
  {
    if i <= j && Has(CountsOf(trace[..i]), e) {
      var k := WhenHappened(trace[..i], e);
      SplitAt(trace, k, j);
    }
  }

  /** Once RmShutdown was issued, RmRestart comes before every RmEndSession unless leave_stopped ran. */
  lemma RestartPrecedesEnd(trace: seq<Event>, i: nat, j: nat)
    requires Disciplined(trace) && i < j < |trace|
    requires trace[i] == Shutdown && trace[j].EndBegin?
    ensures exists k :: i < k < j && (trace[k] == Restart || trace[k] == LeftStopped)
  {
    DisciplinedAt(trace, j);
    SplitAt(trace, i, j);
    var k := WhenHappened(trace[..j], if Has(CountsOf(trace[..j]), Restart) then Restart else LeftStopped);
    DisciplinedAt(trace, k);
    DisciplinedAt(trace, i);
    Earlier(trace, Shutdown, k, i);
  }

  /** RmShutdown is issued at most once, and before every RmRestart. */
  lemma OneShutdownFirst(trace: seq<Event>, i: nat, j: nat)
    requires Disciplined(trace) && i < j < |trace| && trace[j] == Shutdown
    ensures trace[i] != Shutdown && trace[i] != Restart
  {
    DisciplinedAt(trace, j);
    DisciplinedAt(trace, i);
    SplitAt(trace, i, j);
    Earlier(trace, Shutdown, i, j);
  }

  /** No RmRestart without an earlier RmShutdown. */
  lemma RestartNeedsShutdown(trace: seq<Event>, j: nat)
    requires Disciplined(trace) && j < |trace| && trace[j] == Restart
    ensures exists i :: 0 <= i < j && trace[i] == Shutdown
  {
    DisciplinedAt(trace, j);
    var i := WhenHappened(trace[..j], Shutdown);
    assert trace[i] == Shutdown;
  }

  /** Between two RmRestart calls the callback of the first one panicked. */
  lemma {:induction false} RestartsCounted(trace: seq<Event>)
    requires Disciplined(trace)
    ensures Times(trace, RestartUnwound) <= 1 && Times(trace, Restart) <= 2
    ensures Times(trace, RestartUnwound) <= Times(trace, Restart) <= Times(trace, RestartUnwound) + 1
    decreases |trace|
  {
    if trace != [] {
      var init, e := trace[..|trace| - 1], trace[|trace| - 1];
      assert trace == init + [e];
      DisciplinedSnoc(init, e);
      TimesSnoc(init, e);
      RestartsCounted(init);
    }
  }

  /** No native call follows a successful end or the last owner's attempt. */
  lemma NothingAfterClose(trace: seq<Event>, i: nat, j: nat)
    requires Disciplined(trace) && i < j < |trace|
    requires trace[i] == EndReturn(Explicit, true) || (trace[i].EndReturn? && trace[i].kind == Final)
    ensures !trace[j].Query? && !trace[j].CancelBegin? && !trace[j].EndBegin?
    ensures !trace[j].Shutdown? && !trace[j].Restart?
  {
    DisciplinedAt(trace, j);
    SplitAt(trace, i, j);
    DisciplinedAt(trace, i);
    Earlier(trace, EndBegin(trace[i].kind), i, j);
  }

  /** RmEndSession is attempted at most twice; a second attempt is the final one, after a failed first one. */
  lemma TwoEndsAtMost(trace: seq<Event>, i: nat, j: nat)
    requires Disciplined(trace) && i < j < |trace|
    requires trace[i].EndBegin? && trace[j].EndBegin?
    ensures trace[i] == EndBegin(Explicit) && trace[j] == EndBegin(Final)
    ensures Has(CountsOf(trace[..j]), EndReturn(Explicit, false)) && !Closed(CountsOf(trace[..j]))
  {
    var past := trace[..j];
    DisciplinedAt(trace, j);
    SplitAt(trace, i, j);
    assert trace[i].kind == Explicit && trace[j].kind == Final;
  }

  predicate EndsInOrder(n: Counts) {
    && n(EndReturn(Explicit, true)) + n(EndReturn(Explicit, false)) <= n(EndBegin(Explicit)) <= 1
    && n(EndReturn(Final, true)) + n(EndReturn(Final, false)) <= n(EndBegin(Final)) <= 1
    && (Has(n, EndBegin(Final)) ==> !EndingBy(n, Explicit) && !Has(n, EndReturn(Explicit, true)))
  }

  /** Each kind of end is begun at most once and returns at most once; only one of the two succeeds. */
  lemma {:induction false} OneSuccess(trace: seq<Event>)
    requires Disciplined(trace)
    ensures EndsInOrder(CountsOf(trace))
    decreases |trace|
  {
    if trace != [] {
      var init, e := trace[..|trace| - 1], trace[|trace| - 1];
      assert trace == init + [e];
      DisciplinedSnoc(init, e);
      TimesSnoc(init, e);
      OneSuccess(init);
      EndsStayInOrder(CountsOf(init), e, CountsOf(trace));
    }
  }

  lemma EndsStayInOrder(n: Counts, e: Event, m: Counts)
    requires EndsInOrder(n) && Allowed(n, e) && (forall x :: m(x) == n(x) + if x == e then 1 else 0)
    ensures EndsInOrder(m)
  {
    if !e.EndBegin? && !e.EndReturn? {
      assert forall x: Event :: x.EndBegin? || x.EndReturn? ==> m(x) == n(x);
    }
  }

  lemma {:induction false} ReturnsFollowBegins(trace: seq<Event>, t: nat)
    requires Disciplined(trace)
    ensures Times(trace, CancelReturn(t)) <= Times(trace, CancelBegin(t))
    decreases |trace|
  {
    if trace != [] {
      var init, e := trace[..|trace| - 1], trace[|trace| - 1];
      assert trace == init + [e];
      DisciplinedSnoc(init, e);
      TimesSnoc(init, e);
      ReturnsFollowBegins(init, t);
    }
  }

  /** While RmCancelCurrentTask runs, RmEndSession is not begun. */
  lemma NoEndDuringCancel(trace: seq<Event>, i: nat, j: nat, t: nat)
    requires Disciplined(trace) && i < j < |trace|
    requires trace[i] == CancelBegin(t) && trace[j].EndBegin?
    ensures exists k :: i < k < j && trace[k] == CancelReturn(t)
  {
    DisciplinedAt(trace, j);
    EndExcludesCancel(CountsOf(trace[..j]), trace[j], t);
    ReturnedBetween(trace, i, j, t);
  }

  /** While RmEndSession runs, RmCancelCurrentTask is not begun. */
  lemma NoCancelDuringEnd(trace: seq<Event>, i: nat, j: nat, kind: EndKind)
    requires Disciplined(trace) && i < j < |trace|
    requires trace[i] == EndBegin(kind) && trace[j].CancelBegin?
    ensures exists k :: i < k < j && (trace[k] == EndReturn(kind, true) || trace[k] == EndReturn(kind, false))
  {
    hide Disciplined, Allowed, EndsInOrder;
    DisciplinedAt(trace, i);
    OneSuccess(trace[..i]);
    NoReturnYet(CountsOf(trace[..i]), kind);
    DisciplinedAt(trace, j);
    SplitAt(trace, i, j);
    ReturnedByNow(CountsOf(trace[..j]), trace[j], kind);
    CountsGrow(trace, i, j, EndReturn(kind, true));
    CountsGrow(trace, i, j, EndReturn(kind, false));
  }

  lemma NoReturnYet(n: Counts, kind: EndKind)
    requires EndsInOrder(n) && Allowed(n, EndBegin(kind))
    ensures n(EndReturn(kind, true)) == n(EndReturn(kind, false)) == 0
  {}

  lemma ReturnedByNow(n: Counts, e: Event, kind: EndKind)
    requires Allowed(n, e) && e.CancelBegin? && Has(n, EndBegin(kind))
    ensures n(EndReturn(kind, true)) + n(EndReturn(kind, false)) > 0
  {}

  lemma EndExcludesCancel(n: Counts, e: Event, t: nat)
    requires Allowed(n, e) && e.EndBegin?
    ensures n(CancelBegin(t)) <= n(CancelReturn(t))
  {}

  lemma ReturnedBetween(trace: seq<Event>, i: nat, j: nat, t: nat)
    requires Disciplined(trace) && i < j < |trace| && trace[i] == CancelBegin(t)
    requires Times(trace[..j], CancelBegin(t)) <= Times(trace[..j], CancelReturn(t))
    ensures exists k :: i < k < j && trace[k] == CancelReturn(t)
  {
    hide Disciplined, Allowed;
    DisciplinedAt(trace, i);
    ReturnsFollowBegins(trace[..i], t);
    CountsGrow(trace, i, j, CancelBegin(t));
    CountsGrow(trace, i, j, CancelReturn(t));
  }

  /** How often `e` occurs before `j`, given what happens from `i` on. */
  lemma {:induction false} CountsGrow(trace: seq<Event>, i: nat, j: nat, e: Event)
    requires i < j <= |trace|
    ensures Times(trace[..j], e) >= Times(trace[..i], e) + if trace[i] == e then 1 else 0
    ensures (forall k | i <= k < j :: trace[k] != e) ==> Times(trace[..j], e) == Times(trace[..i], e)
    decreases j
  {
    assert trace[..j] == trace[..j - 1] + [trace[j - 1]];
    TimesSnoc(trace[..j - 1], trace[j - 1]);
    if i < j - 1 {
      CountsGrow(trace, i, j - 1, e);
    }
  }
}
