/** The presentation adapter: a depth-one, newest-wins queue in front of a serial engine. Every mutex
    critical section is one step; `Engine.Submit` runs between the steps Take and Return. */
module Presentation {
  import opened Bits
  import opened Raster
  import opened Wrappers

  datatype Refresh = NoRefresh | Differential | Full | WhiteThenTarget | ColorCleanup

  /** The composition buffer is a handle; the owned pixel buffers are their bytes. */
  datatype Frame = Frame(
    sequence: nat, sleepEpoch: int, compose: Option<int>, grayscale: Option<seq<byte>>, sleepRgba: Option<seq<byte>>,
    dirty: Rect, mode: int, flag: int, handwriting: bool, refresh: Refresh, request: int)

  datatype Diagnostics = Diagnostics(
    enqueuesAccepted: nat, pendingReplaced: nat, sleepCancelled: nat,
    trailingDeferred: nat, trailingSubmitted: nat, submitCalls: nat, submitRejected: nat)

  /** What the worker took: the frame, and when, under which interval, and how many frames were accepted by then. */
  datatype Flight = Flight(frame: Frame, trailing: bool, index: nat, seen: nat, takenAt: int, interval: int)

  datatype Submission = Submission(flight: Flight, start: int, finish: int, accepted: bool)

  /** History kept beside the source's fields. `pendingIndex` is the pending frame's place among the accepted ones. */
  datatype Log = Log(
    accepted: seq<Frame>, pendingIndex: nat, submissions: seq<Submission>,
    discarded: nat, trailingRejected: nat, trailingCancelled: nat, clock: int)

  datatype State = State(
    pending: Option<Frame>, pendingIsTrailing: bool, submitting: bool, started: bool, stopping: bool,
    lastAccepted: int, diagnostics: Diagnostics, flight: Option<Flight>, log: Log)

  /** The adapter as constructed. */
  predicate IsFresh(s: State) {
    s == State(None, false, false, false, false, 0, Diagnostics(0, 0, 0, 0, 0, 0, 0), None,
               Log([], 0, [], 0, 0, 0, 0))
  }

  // ---------- the critical sections ----------

  function Started(s: State): State {
    if s.started || s.stopping then s else s.(started := true)
  }

  function Stopped(s: State): State {
    if !s.started || s.stopping then s
    else
      s.(stopping := true, pending := None,
         log := s.log.(discarded := s.log.discarded + if s.pending.Some? then 1 else 0))
  }

  predicate Accepts(s: State, f: Frame) {
    s.started && !s.stopping && (f.compose.Some? || f.grayscale.Some?) && f.dirty.IsValid()
  }

  /** An ordinary frame takes over the diagnostic request of the frame it replaces. */
  function Inheriting(pending: Option<Frame>, f: Frame): Frame {
    if pending.Some? && f.sleepEpoch == 0 && f.request == 0
      then f.(refresh := pending.value.refresh, request := pending.value.request)
    else f
  }

  function Enqueued(s: State, f: Frame): State {
    if !Accepts(s, f) then s
    else
      s.(pending := Some(Inheriting(s.pending, f)),
         diagnostics := s.diagnostics.(
           enqueuesAccepted := s.diagnostics.enqueuesAccepted + 1,
           pendingReplaced := s.diagnostics.pendingReplaced + if s.pending.Some? then 1 else 0),
         log := s.log.(accepted := s.log.accepted + [f], pendingIndex := |s.log.accepted|))
  }

  predicate CancelsSleep(s: State, epoch: int) {
    epoch != 0 && s.pending.Some? && s.pending.value.sleepEpoch == epoch
  }

  function SleepCancelled(s: State, epoch: int): State {
    if !CancelsSleep(s, epoch) then s
    else
      s.(pending := None, pendingIsTrailing := false,
         diagnostics := s.diagnostics.(sleepCancelled := s.diagnostics.sleepCancelled + 1),
         log := s.log.(trailingCancelled := s.log.trailingCancelled + if s.pendingIsTrailing then 1 else 0))
  }

  predicate CancelsDiagnostic(s: State) {
    s.pending.Some? && s.pending.value.request != 0
  }

  function DiagnosticCancelled(s: State): State {
    if !CancelsDiagnostic(s) then s
    else s.(pending := Some(s.pending.value.(request := 0, refresh := NoRefresh)))
  }

  /** The limit holds a frame back. */
  predicate TooEarly(s: State, now: int, interval: int) {
    s.lastAccepted != 0 && interval > 0 && now < s.lastAccepted + interval
  }

  /** One pass of the worker's wait loop. */
  function Polled(s: State, now: int, interval: int): State {
    var t := s.(log := s.log.(clock := now));
    if s.stopping || s.pending.None? then t
    else if TooEarly(s, now, interval) then
      if s.pendingIsTrailing then t
      else t.(pendingIsTrailing := true,
              diagnostics := s.diagnostics.(trailingDeferred := s.diagnostics.trailingDeferred + 1))
    else
      t.(pending := None, submitting := true, pendingIsTrailing := false,
         flight := Some(Flight(s.pending.value, s.pendingIsTrailing, s.log.pendingIndex, |s.log.accepted|,
                               now, interval)))
  }

  /** The section after `Submit` has returned. */
  function Returned(s: State, start: int, finish: int, accepted: bool): State
    requires s.flight.Some?
  {
    var d := s.diagnostics;
    var trailing := s.flight.value.trailing;
    s.(submitting := false, flight := None,
       lastAccepted := if accepted then finish else s.lastAccepted,
       diagnostics := d.(
         submitCalls := d.submitCalls + 1,
         submitRejected := d.submitRejected + if accepted then 0 else 1,
         trailingSubmitted := d.trailingSubmitted + if accepted && trailing then 1 else 0),
       log := s.log.(
         submissions := s.log.submissions + [Submission(s.flight.value, start, finish, accepted)],
         trailingRejected := s.log.trailingRejected + (if !accepted && trailing then 1 else 0),
         clock := finish))
  }

  // ---------- runs ----------

  datatype Event =
    | Start | Stop | Enqueue(frame: Frame) | CancelSleep(epoch: int) | CancelDiagnostic
    | Poll(now: int, interval: int) | Return(start: int, finish: int, ok: bool)

  /** The worker polls only between submissions; the steady clock never runs back and never reads its epoch. */
  predicate Enabled(s: State, e: Event) {
    match e
    case Poll(now, _) => s.started && s.flight.None? && s.log.clock <= now && 0 < now
    case Return(start, finish, _) => s.flight.Some? && s.log.clock <= start <= finish
    case _ => true
  }

  function Step(s: State, e: Event): State
    requires Enabled(s, e)
  {
    match e
    case Start => Started(s)
    case Stop => Stopped(s)
    case Enqueue(f) => Enqueued(s, f)
    case CancelSleep(epoch) => SleepCancelled(s, epoch)
    case CancelDiagnostic => DiagnosticCancelled(s)
    case Poll(now, interval) => Polled(s, now, interval)
    case Return(start, finish, ok) => Returned(s, start, finish, ok)
  }

  predicate CanRun(s: State, events: seq<Event>)
    decreases |events|
  {
    events == [] || (Enabled(s, events[0]) && CanRun(Step(s, events[0]), events[1..]))
  }

  function Run(s: State, events: seq<Event>): State
    requires CanRun(s, events)
    decreases |events|
  {
    if events == [] then s else Run(Step(s, events[0]), events[1..])
  }

  // ---------- conservation ----------

  /** Every accepted frame is accounted for once; so is every deferral. */
  predicate Conserved(s: State) {
    var d := s.diagnostics;
    && d.enqueuesAccepted == |s.log.accepted| && d.submitCalls == |s.log.submissions|
    && d.enqueuesAccepted == d.pendingReplaced + d.sleepCancelled + d.submitCalls
                             + One(s.submitting) + One(s.pending.Some?) + s.log.discarded
    && d.trailingDeferred == d.trailingSubmitted + s.log.trailingRejected + s.log.trailingCancelled
                             + One(s.pendingIsTrailing) + One(s.flight.Some? && s.flight.value.trailing)
    && d.submitCalls == d.submitRejected + |AcceptedOnly(s.log.submissions)|
    && s.submitting == s.flight.Some?
    && s.log.discarded <= 1
    && (s.log.discarded == 1 ==> s.stopping)
    && (s.pendingIsTrailing ==> s.pending.Some? || s.stopping)
    && (s.stopping ==> s.started && s.pending.None?)
    && (!s.started ==> s.pending.None? && s.flight.None? && s.log.accepted == [])
  }

  function AcceptedOnly(log: seq<Submission>): seq<Submission> {
    if log == [] then []
    else AcceptedOnly(log[..|log| - 1]) + if log[|log| - 1].accepted then [log[|log| - 1]] else []
  }

  lemma AcceptedOnlyAppend(log: seq<Submission>, x: Submission)
    ensures AcceptedOnly(log + [x]) == AcceptedOnly(log) + if x.accepted then [x] else []
  {
    assert (log + [x])[..|log|] == log;
  }

  lemma {:induction false} StepConserves(s: State, e: Event)
    requires Conserved(s) && Enabled(s, e)
    ensures Conserved(Step(s, e))
  {
    if e.Return? {
      AcceptedOnlyAppend(s.log.submissions, Submission(s.flight.value, e.start, e.finish, e.ok));
    }
  }

  // ---------- order, freshness and spacing of submissions ----------

  /** The frame is an accepted one; only an ordinary frame's diagnostic request may come from an earlier one, and
      so may its refresh mode, which else is none. */
  ghost predicate IsAcceptedFrame(f: Frame, accepted: seq<Frame>, index: nat) {
    && index < |accepted| && f == accepted[index].(refresh := f.refresh, request := f.request)
    && (f.request != 0 ==> exists k: nat :: k <= index && RequestedBy(f, accepted[k])
                                        && (k == index || f.sleepEpoch == 0))
    && (f.refresh != NoRefresh ==> exists k: nat :: k <= index && RefreshedBy(f, accepted[k])
                                                && (k == index || f.sleepEpoch == 0))
  }

  predicate RefreshedBy(f: Frame, origin: Frame) { f.refresh == origin.refresh }

  predicate RequestedBy(f: Frame, origin: Frame) {
    f.request == origin.request && f.refresh == origin.refresh
  }

  lemma InheritedFrame(s: State, f: Frame)
    requires PendingIsNewest(s)
    ensures IsAcceptedFrame(Inheriting(s.pending, f), s.log.accepted + [f], |s.log.accepted|)
  {
    var accepted := s.log.accepted + [f];
    var g := Inheriting(s.pending, f);
    if g.request != 0 {
      if f.request != 0 || f.sleepEpoch != 0 {
        assert RequestedBy(g, accepted[|s.log.accepted|]);
      } else {
        var k: nat :| k <= s.log.pendingIndex && RequestedBy(s.pending.value, s.log.accepted[k]);
        assert RequestedBy(g, accepted[k]);
      }
    }
    if g.refresh != NoRefresh {
      if g == f {
        assert RefreshedBy(g, accepted[|s.log.accepted|]);
      } else {
        var k: nat :| k <= s.log.pendingIndex && RefreshedBy(s.pending.value, s.log.accepted[k]);
        assert RefreshedBy(g, accepted[k]);
      }
    }
  }

  lemma StaysAccepted(f: Frame, accepted: seq<Frame>, index: nat, more: Frame)
    requires IsAcceptedFrame(f, accepted, index)
    ensures IsAcceptedFrame(f, accepted + [more], index)
  {
    if f.request != 0 {
      var k: nat :| k <= index && RequestedBy(f, accepted[k]) && (k == index || f.sleepEpoch == 0);
      assert RequestedBy(f, (accepted + [more])[k]);
    }
    if f.refresh != NoRefresh {
      var k: nat :| k <= index && RefreshedBy(f, accepted[k]) && (k == index || f.sleepEpoch == 0);
      assert RefreshedBy(f, (accepted + [more])[k]);
    }
  }

  ghost predicate GoodFlight(f: Flight, accepted: seq<Frame>) {
    IsAcceptedFrame(f.frame, accepted, f.index) && f.index == f.seen - 1
  }

  /** Submissions carry accepted frames in order, without repetition, each the newest when it was taken,
      and none starts before the interval after any earlier accepted one has passed. */
  ghost predicate Ordered(log: seq<Submission>, accepted: seq<Frame>) {
    && (forall i :: 0 <= i < |log| ==> GoodFlight(log[i].flight, accepted))
    && (forall i, j :: 0 <= i < j < |log| ==> log[i].flight.index < log[j].flight.index)
    && (forall i, j :: 0 <= i < j < |log| ==> log[i].finish <= log[j].flight.takenAt)
    && (forall i :: 0 <= i < |log| ==> log[i].flight.takenAt <= log[i].start <= log[i].finish)
    && (forall i, j :: 0 <= i < j < |log| && log[i].accepted ==> Spaced(log[i], log[j].flight))
  }

  predicate Spaced(earlier: Submission, later: Flight) {
    later.interval > 0 ==> later.takenAt >= earlier.finish + later.interval
  }

  /** The stored time is the latest accepted finish; 0 stands for none. */
  ghost predicate LastAcceptedIs(log: seq<Submission>, t: int) {
    && t >= 0
    && (forall i :: 0 <= i < |log| && log[i].accepted ==> 0 < log[i].finish <= t)
    && (t > 0 ==> exists i :: 0 <= i < |log| && log[i].accepted && log[i].finish == t)
  }

  ghost predicate Later(index: nat, log: seq<Submission>) {
    forall i :: 0 <= i < |log| ==> log[i].flight.index < index
  }

  ghost predicate DoneBy(log: seq<Submission>, t: int) {
    forall i :: 0 <= i < |log| ==> log[i].finish <= t
  }

  ghost predicate PendingIsNewest(s: State) {
    s.pending.Some? ==>
      && s.log.pendingIndex == |s.log.accepted| - 1
      && IsAcceptedFrame(s.pending.value, s.log.accepted, s.log.pendingIndex)
      && Later(s.log.pendingIndex, s.log.submissions)
      && (s.flight.Some? ==> s.flight.value.index < s.log.pendingIndex)
  }

  ghost predicate FlightFollows(f: Flight, log: seq<Submission>, accepted: seq<Frame>) {
    && GoodFlight(f, accepted) && Later(f.index, log) && DoneBy(log, f.takenAt) && 0 < f.takenAt
    && forall i :: 0 <= i < |log| && log[i].accepted ==> Spaced(log[i], f)
  }

  ghost predicate Scheduled(s: State) {
    && Ordered(s.log.submissions, s.log.accepted)
    && LastAcceptedIs(s.log.submissions, s.lastAccepted)
    && DoneBy(s.log.submissions, s.log.clock)
    && PendingIsNewest(s)
    && (s.flight.Some? ==>
      FlightFollows(s.flight.value, s.log.submissions, s.log.accepted) && s.flight.value.takenAt <= s.log.clock)
  }

  lemma FlightStays(f: Flight, accepted: seq<Frame>, more: Frame)
    requires GoodFlight(f, accepted)
    ensures GoodFlight(f, accepted + [more]) && f.index < |accepted|
  {
    StaysAccepted(f.frame, accepted, f.index, more);
  }

  lemma MoreAccepted(log: seq<Submission>, accepted: seq<Frame>, f: Frame)
    requires Ordered(log, accepted)
    ensures Ordered(log, accepted + [f]) && Later(|accepted|, log)
  {
    hide IsAcceptedFrame;
    forall i | 0 <= i < |log| ensures GoodFlight(log[i].flight, accepted + [f]) && log[i].flight.index < |accepted| {
      FlightStays(log[i].flight, accepted, f);
    }
  }

  lemma MoreSubmitted(log: seq<Submission>, accepted: seq<Frame>, last: int, x: Submission)
    requires Ordered(log, accepted) && LastAcceptedIs(log, last) && FlightFollows(x.flight, log, accepted)
    requires x.flight.takenAt <= x.start <= x.finish
    ensures Ordered(log + [x], accepted) && DoneBy(log + [x], x.finish)
    ensures LastAcceptedIs(log + [x], if x.accepted then x.finish else last)
  {
    var more := log + [x];
    hide GoodFlight, Spaced;
    if x.accepted {
      assert more[|log|].accepted && more[|log|].finish == x.finish;
    } else if last > 0 {
      var i :| 0 <= i < |log| && log[i].accepted && log[i].finish == last;
      assert more[i].accepted && more[i].finish == last;
    }
  }

  lemma TakenFlight(s: State, now: int, interval: int)
    requires Scheduled(s) && s.flight.None? && s.pending.Some? && s.log.clock <= now && 0 < now
    requires !TooEarly(s, now, interval)
    ensures FlightFollows(
      Flight(s.pending.value, s.pendingIsTrailing, s.log.pendingIndex, |s.log.accepted|, now, interval),
      s.log.submissions, s.log.accepted)
  {
    hide Ordered, IsAcceptedFrame;
  }

  lemma {:induction false} EnqueueSchedules(s: State, f: Frame)
    requires Scheduled(s) && Accepts(s, f)
    ensures Scheduled(Enqueued(s, f))
  {
    MoreAccepted(s.log.submissions, s.log.accepted, f);
    InheritedFrame(s, f);
    if s.flight.Some? { FlightStays(s.flight.value, s.log.accepted, f); }
    hide Ordered, LastAcceptedIs, DoneBy, IsAcceptedFrame, GoodFlight, Spaced;
  }

  lemma {:induction false} ReturnSchedules(s: State, start: int, finish: int, accepted: bool)
    requires Scheduled(s) && Enabled(s, Return(start, finish, accepted))
    ensures Scheduled(Returned(s, start, finish, accepted))
  {
    MoreSubmitted(s.log.submissions, s.log.accepted, s.lastAccepted,
      Submission(s.flight.value, start, finish, accepted));
    hide Ordered, LastAcceptedIs, DoneBy, IsAcceptedFrame;
  }

  lemma {:induction false} StepSchedules(s: State, e: Event)
    requires Scheduled(s) && Enabled(s, e)
    ensures Scheduled(Step(s, e))
  {
    hide Ordered, LastAcceptedIs, Later, FlightFollows;
    match e
    case Enqueue(f) => if Accepts(s, f) { EnqueueSchedules(s, f); }
    case Return(start, finish, ok) => ReturnSchedules(s, start, finish, ok);
    case Poll(now, interval) =>
      if s.flight.None? && s.pending.Some? && !TooEarly(s, now, interval) { TakenFlight(s, now, interval); }
    case _ =>
  }

  /** What holds between any two steps. */
  ghost predicate Good(s: State) {
    Conserved(s) && Scheduled(s)
  }

  lemma {:induction false} StepKeeps(s: State, e: Event)
    requires Good(s) && Enabled(s, e)
    ensures Good(Step(s, e))
  {
    StepConserves(s, e);
    StepSchedules(s, e);
  }

  lemma FreshIsConserved(s: State)
    requires IsFresh(s)
    ensures Conserved(s)
  {
  }

  lemma FreshIsScheduled(s: State)
    requires IsFresh(s)
    ensures Scheduled(s)
  {
    hide GoodFlight, Spaced;
  }

  lemma FreshIsGood(s: State)
    requires IsFresh(s)
    ensures Good(s)
  {
    hide IsFresh, Conserved, Scheduled;
    FreshIsConserved(s);
    FreshIsScheduled(s);
  }

  /** Both invariants hold after every run: accepted = replaced + sleep-cancelled + submitted + in flight
      + pending + discarded, and submissions are ordered, fresh and spaced. */
  lemma {:induction false} EveryRun(s: State, events: seq<Event>)
    requires Good(s) && CanRun(s, events)
    ensures Good(Run(s, events))
    decreases |events|
  {
    hide Good, Step, Enabled;
    if events != [] {
      StepKeeps(s, events[0]);
      EveryRun(Step(s, events[0]), events[1..]);
    }
  }

  // ---------- engine calls only accumulate; Stop is terminal ----------

  /** The frames handed to the engine so far, the one in flight last. */
  function Calls(s: State): nat { |s.log.submissions| + One(s.flight.Some?) }

  function Call(s: State, k: nat): Flight
    requires k < Calls(s)
  {
    if k < |s.log.submissions| then s.log.submissions[k].flight else s.flight.value
  }

  ghost predicate CallsKept(s: State, t: State) {
    Calls(s) <= Calls(t) && forall k: nat :: k < Calls(s) ==> Call(t, k) == Call(s, k)
  }

  lemma {:induction false} RunKeepsCalls(s: State, events: seq<Event>)
    requires CanRun(s, events)
    ensures CallsKept(s, Run(s, events))
    decreases |events|
  {
    if events != [] { RunKeepsCalls(Step(s, events[0]), events[1..]); }
  }

  /** After Stop nothing is accepted, pending or handed to the engine; at most the call in flight returns. */
  lemma {:induction false} StopIsTerminal(s: State, events: seq<Event>)
    requires CanRun(s, events) && s.started && s.stopping && s.pending.None?
    ensures var t := Run(s, events);
            && t.stopping && t.pending.None? && Calls(t) == Calls(s)
            && t.log.accepted == s.log.accepted && (s.flight.None? ==> t.diagnostics == s.diagnostics)
    decreases |events|
  {
    if events != [] { StopIsTerminal(Step(s, events[0]), events[1..]); }
  }

  /** Stop before Start changes nothing, so the adapter can still be started. */
  lemma StopNeedsStart(s: State)
    requires Conserved(s)
    ensures Stopped(s).stopping <==> s.started
    ensures !s.started ==> Started(Stopped(s)).started && !Stopped(s).stopping
  {
  }

  // ---------- diagnostic requests ride on ----------

  predicate Carries(f: Frame, request: int, refresh: Refresh) {
    f.request == request && f.refresh == refresh
  }

  /** The pending frame carries the request. */
  predicate Waiting(s: State, request: int, refresh: Refresh) {
    s.pending.Some? && Carries(s.pending.value, request, refresh)
  }

  /** A newer request, a sleep frame, a cancel or Stop. */
  predicate Loses(s: State, e: Event, request: int, refresh: Refresh) {
    match e
    case Stop => s.started && !s.stopping
    case CancelDiagnostic => true
    case CancelSleep(epoch) => CancelsSleep(s, epoch)
    case Enqueue(f) => Accepts(s, f) && (f.request != 0 || f.sleepEpoch != 0) && !Carries(f, request, refresh)
    case _ => false
  }

  predicate Takes(s: State, e: Event) {
    e.Poll? && s.flight.None? && s.pending.Some? && !s.stopping && !TooEarly(s, e.now, e.interval)
  }

  /** One step loses a waiting request exactly in those four ways; otherwise it waits on or goes to the engine. */
  lemma {:induction false} RequestStep(s: State, e: Event, request: int, refresh: Refresh)
    requires Enabled(s, e) && request != 0 && Waiting(s, request, refresh)
    ensures !Loses(s, e, request, refresh) <==>
            || Waiting(Step(s, e), request, refresh)
            || (Takes(s, e) && Carries(Call(Step(s, e), Calls(s)).frame, request, refresh))
    ensures Takes(s, e) <==> Calls(Step(s, e)) == Calls(s) + 1
  {
  }

  /** A losing step happens while the request waits. */
  predicate LostAlong(s: State, events: seq<Event>, request: int, refresh: Refresh)
    requires CanRun(s, events)
    decreases |events|
  {
    && events != [] && Waiting(s, request, refresh)
    && (Loses(s, events[0], request, refresh) || LostAlong(Step(s, events[0]), events[1..], request, refresh))
  }

  ghost predicate Delivered(s: State, first: nat, request: int, refresh: Refresh) {
    exists k: nat :: first <= k < Calls(s) && Carries(Call(s, k).frame, request, refresh)
  }

  /** Unless lost, a request is still waiting at the end of any run or was handed to the engine in it. */
  lemma {:induction false} RequestRides(s: State, events: seq<Event>, request: int, refresh: Refresh)
    requires CanRun(s, events) && request != 0 && Waiting(s, request, refresh)
    requires !LostAlong(s, events, request, refresh)
    ensures Waiting(Run(s, events), request, refresh) || Delivered(Run(s, events), Calls(s), request, refresh)
    decreases |events|
  {
    if events != [] {
      var t, rest := Step(s, events[0]), events[1..];
      RequestStep(s, events[0], request, refresh);
      if Waiting(t, request, refresh) {
        RequestRides(t, rest, request, refresh);
        CallsGrow(s, events[0]);
      } else {
        RunKeepsCalls(t, rest);
        assert Call(Run(t, rest), Calls(s)) == Call(t, Calls(s));
      }
    }
  }

  lemma {:induction false} CallsGrow(s: State, e: Event)
    requires Enabled(s, e)
    ensures CallsKept(s, Step(s, e))
  {
  }

  // ---------- the admission view ----------

  datatype OutputSlot = OutputSlot(hasRetainedCandidate: bool, nextEligible: Option<int>)

  function Slot(s: State, interval: int): OutputSlot {
    OutputSlot(s.pending.Some? || s.submitting,
               if s.lastAccepted == 0 || interval <= 0 then None else Some(s.lastAccepted + interval))
  }

  /** A candidate is retained exactly while some accepted frame has no fate yet, and the worker takes the
      pending frame exactly when the published time has come. */
  lemma SlotPredictsWorker(s: State, now: int, interval: int)
    requires Conserved(s) && Enabled(s, Poll(now, interval))
    ensures var slot := Slot(s, interval);
            var d := s.diagnostics;
            && (slot.hasRetainedCandidate <==>
                  d.enqueuesAccepted > d.pendingReplaced + d.sleepCancelled + d.submitCalls + s.log.discarded)
            && (Takes(s, Poll(now, interval)) <==>
                  slot.hasRetainedCandidate && (slot.nextEligible.None? || now >= slot.nextEligible.value))
  {
  }

  // ---------- the adapter ----------

  lemma StartKeeps(s: State)
    requires Good(s)
    ensures Good(Started(s))
  {
    hide Good, Started;
    StepKeeps(s, Start);
  }

  lemma StopKeeps(s: State)
    requires Good(s)
    ensures Good(Stopped(s))
  {
    hide Good, Stopped;
    StepKeeps(s, Stop);
  }

  lemma EnqueueKeeps(s: State, f: Frame)
    requires Good(s)
    ensures Good(Enqueued(s, f))
  {
    hide Good, Enqueued;
    StepKeeps(s, Enqueue(f));
  }

  lemma SleepCancelKeeps(s: State, epoch: int)
    requires Good(s)
    ensures Good(SleepCancelled(s, epoch))
  {
    hide Good, SleepCancelled;
    StepKeeps(s, CancelSleep(epoch));
  }

  lemma DiagnosticCancelKeeps(s: State)
    requires Good(s)
    ensures Good(DiagnosticCancelled(s))
  {
    hide Good, DiagnosticCancelled;
    StepKeeps(s, CancelDiagnostic);
  }

  lemma PollKeeps(s: State, now: int, interval: int)
    requires Good(s) && Enabled(s, Poll(now, interval))
    ensures Good(Polled(s, now, interval))
  {
    hide Good, Polled;
    StepKeeps(s, Poll(now, interval));
  }

  lemma ReturnKeeps(s: State, start: int, finish: int, ok: bool)
    requires Good(s) && Enabled(s, Return(start, finish, ok))
    ensures Good(Returned(s, start, finish, ok))
  {
    hide Good, Returned;
    StepKeeps(s, Return(start, finish, ok));
  }

  class PresentationAdapter {
    var pending: Option<Frame>
    var pendingIsTrailing: bool
    var submitting: bool
    var started: bool
    var stopping: bool
    var lastAcceptedSubmission: int
    var diagnostics: Diagnostics
    /** The worker's own variables while it is inside Submit. */
    var frame: Option<Frame>
    var trailingSubmission: bool
    ghost var taken: Flight
    ghost var log: Log

    ghost function Abs(): State
      reads this
    {
      var flight := if frame.None? then None else Some(taken.(frame := frame.value, trailing := trailingSubmission));
      State(pending, pendingIsTrailing, submitting, started, stopping, lastAcceptedSubmission, diagnostics, flight, log)
    }

    ghost predicate Valid()
      reads this
    {
      Good(Abs())
    }

    constructor ()
      ensures IsFresh(Abs()) && Valid()
    {
      pending, pendingIsTrailing, submitting, started, stopping := None, false, false, false, false;
      lastAcceptedSubmission, diagnostics, frame := 0, Diagnostics(0, 0, 0, 0, 0, 0, 0), None;
      log := Log([], 0, [], 0, 0, 0, 0);
      new;
      FreshIsGood(Abs());
      hide Good;
    }

    method StartWorker()
      requires Valid()
      modifies this
      ensures Valid() && Abs() == Started(old(Abs()))
    {
      hide Good;
      StartKeeps(Abs());
      if started { return; }
      if stopping { return; }
      started := true;
    }

    /** The critical section of Stop. */
    method StopWorker()
      requires Valid()
      modifies this
      ensures Valid() && Abs() == Stopped(old(Abs()))
    {
      hide Good;
      StopKeeps(Abs());
      if !started || stopping { return; }
      stopping := true;
      log := log.(discarded := log.discarded + if pending.Some? then 1 else 0);
      pending := None;
    }

    method EnqueueFrame(offered: Frame) returns (accepted: bool)
      requires Valid()
      modifies this
      ensures Valid() && Abs() == Enqueued(old(Abs()), offered)
      ensures accepted <==> old(Accepts(Abs(), offered))
    {
      hide Good;
      EnqueueKeeps(Abs(), offered);
      if !started || stopping { return false; }
      if (offered.compose.None? && offered.grayscale.None?) || !offered.dirty.IsValid() { return false; }
      var kept, counts := offered, diagnostics;
      if pending.Some? {
        counts := counts.(pendingReplaced := counts.pendingReplaced + 1);
        if offered.sleepEpoch == 0 && offered.request == 0 {
          kept := kept.(refresh := pending.value.refresh);
          kept := kept.(request := pending.value.request);
        }
      }
      counts := counts.(enqueuesAccepted := counts.enqueuesAccepted + 1);
      pending, diagnostics := Some(kept), counts;
      log := log.(accepted := log.accepted + [offered], pendingIndex := |log.accepted|);
      return true;
    }

    method CancelPendingSleepImage(epoch: int) returns (cancelled: bool)
      requires Valid()
      modifies this
      ensures Valid() && Abs() == SleepCancelled(old(Abs()), epoch)
      ensures cancelled <==> old(CancelsSleep(Abs(), epoch))
    {
      hide Good;
      SleepCancelKeeps(Abs(), epoch);
      if epoch == 0 { return false; }
      if pending.None? || pending.value.sleepEpoch != epoch { return false; }
      pending := None;
      log := log.(trailingCancelled := log.trailingCancelled + if pendingIsTrailing then 1 else 0);
      pendingIsTrailing := false;
      diagnostics := diagnostics.(sleepCancelled := diagnostics.sleepCancelled + 1);
      return true;
    }

    method CancelPendingDiagnosticRefresh() returns (cancelled: bool)
      requires Valid()
      modifies this
      ensures Valid() && Abs() == DiagnosticCancelled(old(Abs()))
      ensures cancelled <==> old(CancelsDiagnostic(Abs()))
    {
      hide Good;
      DiagnosticCancelKeeps(Abs());
      if pending.None? || pending.value.request == 0 { return false; }
      pending := Some(pending.value.(request := 0));
      pending := Some(pending.value.(refresh := NoRefresh));
      return true;
    }

    method OutputSlotState(interval: int) returns (slot: OutputSlot)
      requires Valid()
      ensures slot == Slot(Abs(), interval)
    {
      slot := OutputSlot(pending.Some? || submitting, None);
      if lastAcceptedSubmission == 0 { return; }
      if interval > 0 { slot := slot.(nextEligible := Some(lastAcceptedSubmission + interval)); }
    }

    /** One pass of the worker's wait loop up to the point where it leaves the lock. */
    method PollPending(now: int, interval: int) returns (took: bool)
      requires Valid() && Enabled(Abs(), Poll(now, interval))
      modifies this
      ensures Valid() && Abs() == Polled(old(Abs()), now, interval)
      ensures took <==> old(Takes(Abs(), Poll(now, interval)))
    {
      hide Good;
      PollKeeps(Abs(), now, interval);
      log := log.(clock := now);
      if stopping || pending.None? { return false; }
      var eligibleAt := lastAcceptedSubmission + interval;
      if lastAcceptedSubmission != 0 && interval > 0 && now < eligibleAt {
        if !pendingIsTrailing {
          pendingIsTrailing := true;
          diagnostics := diagnostics.(trailingDeferred := diagnostics.trailingDeferred + 1);
        }
        return false;
      }
      taken := Flight(pending.value, pendingIsTrailing, log.pendingIndex, |log.accepted|, now, interval);
      frame := pending;
      pending := None;
      submitting := true;
      trailingSubmission := pendingIsTrailing;
      pendingIsTrailing := false;
      return true;
    }

    method FinishSubmit(start: int, finish: int, accepted: bool)
      requires Valid() && Enabled(Abs(), Return(start, finish, accepted))
      modifies this
      ensures Valid() && Abs() == Returned(old(Abs()), start, finish, accepted)
    {
      hide Good;
      ReturnKeeps(Abs(), start, finish, accepted);
      ghost var call := Abs().flight.value;
      var counts := diagnostics.(submitCalls := diagnostics.submitCalls + 1);
      if !accepted {
        counts := counts.(submitRejected := counts.submitRejected + 1);
      } else {
        lastAcceptedSubmission := finish;
        if trailingSubmission { counts := counts.(trailingSubmitted := counts.trailingSubmitted + 1); }
      }
      submitting, diagnostics, frame := false, counts, None;
      log := log.(submissions := log.submissions + [Submission(call, start, finish, accepted)],
                  trailingRejected := log.trailingRejected + One(!accepted && trailingSubmission), clock := finish);
    }
  }
}
