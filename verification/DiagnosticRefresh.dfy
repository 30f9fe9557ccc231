/** Diagnostic refresh requests in the pipeline: where the newest one lives, which sections lose it, and what a
    lost one blocks. */
module DiagnosticRefresh {
  import opened Raster
  import opened Wrappers
  import opened Presentation
  import opened SleepCycle
  import Grayscale
  import Overlay

  // ---------- the places a request can be in ----------

  /** The request numbers in the pipeline, pending in the adapter, in the engine call, and submitted but not yet
      seen by the callback; 0 stands for none. */
  datatype Places = Places(prepared: int, pending: int, inFlight: int, unseen: seq<int>)

  function Unseen(log: seq<Submission>, from: nat): (requests: seq<int>)
    requires from <= |log|
  {
    seq(|log| - from, k requires 0 <= k < |log| - from => log[from + k].flight.frame.request)
  }

  function PlacesOf(p: Pipe): Places
    requires p.history.observed <= |p.adapter.log.submissions|
  {
    Places(p.core.refreshId, PendingRequest(p.adapter),
           if p.adapter.flight.Some? then p.adapter.flight.value.frame.request else 0,
           Unseen(p.adapter.log.submissions, p.history.observed))
  }

  predicate Holds(x: Places, n: int) { x.prepared == n || x.pending == n || x.inFlight == n || n in x.unseen }

  /** No number is newer than n, only n itself is prepared or pending, and n is in one place at most. */
  predicate Numbered(busy: bool, n: nat, x: Places) {
    && (x.prepared == 0 || (x.prepared == n && busy)) && (x.pending == 0 || (x.pending == n && busy))
    && 0 <= x.inFlight <= n && (forall r :: r in x.unseen ==> 0 <= r <= n)
    && (x.prepared != 0 ==> x.pending == 0 && x.inFlight != n && n !in x.unseen)
    && (x.pending != 0 ==> x.inFlight != n && n !in x.unseen)
    && (n != 0 && x.inFlight == n ==> n !in x.unseen)
  }

  /** In a sleep cycle, and while the worker carries a replacement image, no request is pending. */
  predicate Asleep(p: Pipe) {
    p.latch.active != 0 || Carried(p.core.worker) != 0 ==> PendingRequest(p.adapter) == 0
  }

  predicate Tracked(p: Pipe) {
    && p.history.observed <= |p.adapter.log.submissions|
    && Numbered(p.core.refreshBusy, p.core.refreshRequested, PlacesOf(p)) && Asleep(p)
  }

  /** Busy means the newest request still is somewhere; when it is nowhere, every later one is refused. */
  predicate Live(p: Pipe)
    requires p.history.observed <= |p.adapter.log.submissions|
  {
    p.core.refreshBusy ==> p.core.refreshRequested != 0 && Holds(PlacesOf(p), p.core.refreshRequested)
  }

  /** A sleep image replaces the pending request, or the adapter stops over it. */
  predicate Loses(p: Pipe, e: PipeEvent) {
    && PendingRequest(p.adapter) != 0
    && (|| (e.Caller? && e.call.Present? && PresentOf(p, e.call.epoch).PresentAccepted?)
        || (e == Adapter(Event.Stop) && p.adapter.started && !p.adapter.stopping))
  }

  /** The two sections that clear the busy mark whatever it stands for. */
  predicate Frees(p: Pipe, e: PipeEvent) {
    || (e == Caller(Control.SetEnabled(false)) && Running(p.core))
    || (e.Caller? && e.call.Arm? && ArmOf(p, e.call.epoch).ArmAccepted?)
  }

  /** What one section makes of it. */
  predicate Follows(p: Pipe, e: PipeEvent, q: Pipe)
    requires Tracked(p)
  {
    Tracked(q) && (Live(q) <==> if Live(p) then !Loses(p, e) else Frees(p, e))
  }

  // ---------- the sections ----------

  lemma SamePlaces(p: Pipe, e: PipeEvent, q: Pipe)
    requires Tracked(p) && !Loses(p, e) && !Frees(p, e)
    requires q.core.refreshBusy == p.core.refreshBusy && q.core.refreshRequested == p.core.refreshRequested
    requires q.core.refreshId == p.core.refreshId && PendingRequest(q.adapter) == PendingRequest(p.adapter)
    requires q.adapter.flight == p.adapter.flight && q.adapter.log.submissions == p.adapter.log.submissions
    requires q.history.observed == p.history.observed && Asleep(q)
    ensures Follows(p, e, q)
  {
    hide PendingRequest, Carried, Loses, Frees;
  }

  lemma EnqueuedRequest(s: State, f: Frame)
    ensures var t := Enqueued(s, f);
            && t.flight == s.flight && t.log.submissions == s.log.submissions
            && PendingRequest(t) == if Accepts(s, f) && (f.sleepEpoch != 0 || f.request != 0) then f.request
                                    else PendingRequest(s)
  {
  }

  lemma CancelledRequest(s: State, epoch: int)
    ensures var t := SleepCancelled(s, epoch);
            && t.flight == s.flight && t.log.submissions == s.log.submissions
            && (PendingRequest(t) == PendingRequest(s) || PendingRequest(t) == 0)
    ensures var t := DiagnosticCancelled(s);
            t.flight == s.flight && t.log.submissions == s.log.submissions && PendingRequest(t) == 0
  {
  }

  lemma PresentFollows(p: Pipe, epoch: int)
    requires Tracked(p)
    ensures Follows(p, Caller(Present(epoch)), Presented(p, epoch))
  {
    hide Carried, PendingRequest;
    if Prepared(p, epoch).PresentAccepted? {
      SleepFrameFacts(p, epoch);
      EnqueuedRequest(p.adapter, SleepFrame(p, epoch));
    }
    hide SleepFrame, Accepts, Enqueued, Composed, ValidCandidate, Prepared, Unseen;
  }

  lemma ArmFollows(p: Pipe, epoch: int)
    requires Tracked(p)
    ensures Follows(p, Caller(Arm(epoch)), CycleArmed(p, epoch))
  {
    CancelledRequest(p.adapter, 0);
    hide Carried, PendingRequest, DiagnosticCancelled, ArmedBy, ArmOf, Unseen;
  }

  lemma EnableFollows(p: Pipe, on: bool)
    requires Tracked(p)
    ensures Follows(p, Caller(Control.SetEnabled(on)), EnabledAs(p, on))
  {
    CancelledRequest(p.adapter, 0);
    hide Carried, PendingRequest, DiagnosticCancelled, Unseen;
  }

  lemma DisarmFollows(p: Pipe, epoch: int)
    requires Tracked(p)
    ensures Follows(p, Caller(Disarm(epoch)), CycleDisarmed(p, epoch))
  {
    CancelledRequest(p.adapter, epoch);
    hide SleepCancelled, PendingRequest, Carried;
    SamePlaces(p, Caller(Disarm(epoch)), CycleDisarmed(p, epoch));
  }

  lemma RequestFollows(p: Pipe, refresh: Refresh)
    requires Tracked(p)
    ensures Follows(p, Caller(RequestRefresh(refresh)), RefreshRequested(p, refresh))
  {
    hide Carried, PendingRequest, Unseen;
  }

  lemma CancelFollows(p: Pipe, id: int)
    requires Tracked(p)
    ensures Follows(p, Caller(CancelRefresh(id)), RefreshCancelled(p, id))
  {
    hide Carried, PendingRequest, Unseen;
  }

  lemma CallFollows(p: Pipe, c: Control)
    requires Tracked(p)
    ensures Follows(p, Caller(c), Called(p, c))
  {
    hide Tracked, Follows, Presented, CycleArmed, CycleDisarmed, EnabledAs, RefreshRequested, RefreshCancelled, Asleep;
    match c
    case Present(epoch) => PresentFollows(p, epoch);
    case Arm(epoch) => ArmFollows(p, epoch);
    case SetEnabled(on) => EnableFollows(p, on);
    case Disarm(epoch) => DisarmFollows(p, epoch);
    case RequestRefresh(refresh) => RequestFollows(p, refresh);
    case CancelRefresh(id) => CancelFollows(p, id);
    case _ => AwakeStays(p, c); SamePlaces(p, Caller(c), Called(p, c));
  }

  lemma AwakeStays(p: Pipe, c: Control)
    requires Tracked(p) && (c.StartPipe? || c.StopPipe? || c.ResetSource? || c.Publish? || c.Capture?)
    ensures Asleep(Called(p, c))
  {
    hide Carried, PendingRequest, PlacesOf, Numbered;
  }

  lemma ConvertFollows(p: Pipe, result: Option<Gray>)
    requires Tracked(p) && p.core.worker.Converting?
    ensures Follows(p, Conversion(Convert(result)), ConversionReturned(p, result))
  {
    hide PendingRequest, Unseen;
  }

  lemma JudgeFollows(p: Pipe)
    requires Tracked(p) && p.core.worker.Checked?
    ensures Follows(p, Conversion(Judge), FrameJudged(p))
  {
    var g := p.core.worker.gray;
    JudgementFacts(p.latch, g, Chosen(p.core.catalog, g.width, g.height));
    hide PendingRequest, Judged, LatchAfter, Shown, Chosen;
    SamePlaces(p, Conversion(Judge), FrameJudged(p));
  }

  lemma DeliverFollows(p: Pipe)
    requires Tracked(p) && p.core.worker.Selected?
    ensures Follows(p, Conversion(Deliver), FrameDelivered(p))
  {
    var f := DeliveredFrame(p);
    EnqueuedRequest(p.adapter, f);
    assert f.sleepEpoch == Carried(p.core.worker);
    assert f.request == if RefreshStands(p) then p.core.refreshId else 0;
    assert RefreshStands(p) ==> p.core.refreshId != 0;
    hide PendingRequest, Accepts, Enqueued, DeliveredFrame, Unseen, RefreshStands;
  }

  lemma WorkFollows(p: Pipe, w: Work)
    requires Tracked(p) && WorkEnabled(p, w)
    ensures Follows(p, Conversion(w), Worked(p, w))
  {
    hide Tracked, Follows, FrameJudged, FrameDelivered, ConversionReturned, PendingRequest, Asleep;
    match w
    case Convert(result) => ConvertFollows(p, result);
    case Judge => JudgeFollows(p);
    case Deliver => DeliverFollows(p);
    case _ => WorkStaysAwake(p, w); SamePlaces(p, Conversion(w), Worked(p, w));
  }

  lemma WorkStaysAwake(p: Pipe, w: Work)
    requires Tracked(p) && WorkEnabled(p, w) && (w.Take? || w.Check? || w.Select?)
    ensures Asleep(Worked(p, w))
  {
    hide PendingRequest, PlacesOf, Numbered;
  }

  lemma PollFollows(p: Pipe, now: int, interval: int)
    requires Tracked(p) && PipeEnabled(p, Adapter(Poll(now, interval)))
    ensures Follows(p, Adapter(Poll(now, interval)), PipeStep(p, Adapter(Poll(now, interval))))
  {
    hide Carried, TooEarly;
  }

  lemma ReturnFollows(p: Pipe, start: int, finish: int, ok: bool)
    requires Tracked(p) && PipeEnabled(p, Adapter(Return(start, finish, ok)))
    ensures var e := Adapter(Return(start, finish, ok)); Follows(p, e, PipeStep(p, e))
  {
    var e := Adapter(Return(start, finish, ok));
    var q := PipeStep(p, e);
    var log, from := p.adapter.log.submissions, p.history.observed;
    assert q.adapter.log.submissions == log + [q.adapter.log.submissions[|log|]];
    UnseenAppend(log, from, q.adapter.log.submissions[|log|]);
    hide Carried, Unseen;
  }

  lemma UnseenAppend(log: seq<Submission>, from: nat, x: Submission)
    requires from <= |log|
    ensures Unseen(log + [x], from) == Unseen(log, from) + [x.flight.frame.request]
  {
  }

  lemma UnseenFirst(log: seq<Submission>, from: nat)
    requires from < |log|
    ensures Unseen(log, from) == [log[from].flight.frame.request] + Unseen(log, from + 1)
  {
  }

  lemma StartFollows(p: Pipe)
    requires Tracked(p)
    ensures Follows(p, Adapter(Event.Start), p.(adapter := Started(p.adapter)))
  {
    hide Carried, Unseen;
  }

  lemma StopFollows(p: Pipe)
    requires Tracked(p)
    ensures Follows(p, Adapter(Event.Stop), p.(adapter := Stopped(p.adapter)))
  {
    var q := p.(adapter := Stopped(p.adapter));
    assert PlacesOf(q) == PlacesOf(p) || PlacesOf(q) == PlacesOf(p).(pending := 0);
    hide Carried, Unseen;
  }

  lemma AnswerSeen(busy: bool, n: nat, x: Places, first: int, rest: seq<int>)
    requires Numbered(busy, n, x) && x.unseen == [first] + rest
    ensures var still := busy && (first == 0 || first != n);
            && Numbered(still, n, x.(unseen := rest))
            && ((still ==> n != 0 && Holds(x.(unseen := rest), n)) <==> (busy ==> n != 0 && Holds(x, n)))
  {
    assert x.unseen[0] == first;
    assert forall r :: r in rest ==> r in x.unseen;
    assert n in x.unseen <==> n == first || n in rest;
  }

  lemma PageOnly(c: Core, s: Submission)
    ensures WithPage(c, s) == c.(background := WithPage(c, s).background,
                                 backgroundSequence := WithPage(c, s).backgroundSequence)
  {
    hide Retainable, Overlay.PanelGray;
  }

  lemma NotACall(p: Pipe)
    ensures !Frees(p, Observe) && !Loses(p, Observe)
  {
  }

  lemma ObserveFollows(p: Pipe)
    requires Tracked(p) && p.history.observed < |p.adapter.log.submissions|
    ensures Follows(p, Observe, Observed(p))
  {
    hide Carried, Unseen, WithPage, PendingRequest, Numbered, Holds, Frees, Loses;
    var log, from := p.adapter.log.submissions, p.history.observed;
    PageOnly(p.core, log[from]);
    UnseenFirst(log, from);
    AnswerSeen(p.core.refreshBusy, p.core.refreshRequested, PlacesOf(p), log[from].flight.frame.request,
               Unseen(log, from + 1));
    assert !Frees(p, Observe) && !Loses(p, Observe) by { NotACall(p); }
  }

  /** In every section: from a state in which busy means alive, exactly the losing ones leave it; from one in which
      the newest request is lost, exactly the freeing ones lead back. */
  lemma {:induction false} StepFollows(p: Pipe, e: PipeEvent)
    requires Tracked(p) && PipeEnabled(p, e)
    ensures Follows(p, e, PipeStep(p, e))
  {
    hide Tracked, Follows, Called, Worked, Observed, Started, Stopped, Polled, Returned;
    match e
    case Caller(c) => CallFollows(p, c);
    case Conversion(w) => WorkFollows(p, w);
    case Observe => ObserveFollows(p);
    case Adapter(a) =>
      match a
      case Poll(now, interval) => PollFollows(p, now, interval);
      case Return(start, finish, ok) => ReturnFollows(p, start, finish, ok);
      case Start => StartFollows(p);
      case Stop => StopFollows(p);
      case _ =>
  }

  // ---------- runs ----------

  predicate LiveThroughout(p: Pipe, events: seq<PipeEvent>)
    requires CanRunPipe(p, events)
    decreases |events|
  {
    && p.history.observed <= |p.adapter.log.submissions| && Live(p)
    && (events != [] ==> LiveThroughout(PipeStep(p, events[0]), events[1..]))
  }

  predicate NeverLoses(p: Pipe, events: seq<PipeEvent>)
    requires CanRunPipe(p, events)
    decreases |events|
  {
    events != [] ==> !Loses(p, events[0]) && NeverLoses(PipeStep(p, events[0]), events[1..])
  }

  predicate NeverFrees(p: Pipe, events: seq<PipeEvent>)
    requires CanRunPipe(p, events)
    decreases |events|
  {
    events != [] ==> !Frees(p, events[0]) && NeverFrees(PipeStep(p, events[0]), events[1..])
  }

  /** Nothing has been requested. */
  predicate Unrequested(c: Core) { c.refreshId == 0 && !c.refreshBusy }

  lemma FreshIsTracked(p: Pipe)
    requires IsFreshPipe(p) && Unrequested(p.core)
    ensures Tracked(p) && Live(p)
  {
  }

  /** Busy means alive throughout a run if and only if the run loses no request. */
  lemma {:induction false} BusyMeansLive(p: Pipe, events: seq<PipeEvent>)
    requires Tracked(p) && Live(p) && CanRunPipe(p, events)
    ensures LiveThroughout(p, events) <==> NeverLoses(p, events)
    decreases |events|
  {
    hide Live, Loses, Frees, PipeStep, PipeEnabled, Numbered, Asleep, PlacesOf;
    if events != [] {
      StepFollows(p, events[0]);
      if !Loses(p, events[0]) { BusyMeansLive(PipeStep(p, events[0]), events[1..]); }
    }
  }

  /** Once the newest request is lost, no request is granted, until presentation is disabled or a cycle is armed. */
  lemma {:induction false} LostBlocks(p: Pipe, events: seq<PipeEvent>, refresh: Refresh)
    requires Tracked(p) && !Live(p) && CanRunPipe(p, events) && NeverFrees(p, events)
    ensures Tracked(RunPipe(p, events)) && !Live(RunPipe(p, events)) && !GrantsRefresh(RunPipe(p, events), refresh)
    decreases |events|
  {
    if events != [] {
      hide Live, Loses, Frees, PipeStep, PipeEnabled, Numbered, Asleep, PlacesOf;
      StepFollows(p, events[0]);
      LostBlocks(PipeStep(p, events[0]), events[1..], refresh);
    }
  }

  // ---------- two runs that lose a request ----------

  lemma {:induction false} RunMore(p: Pipe, events: seq<PipeEvent>, e: PipeEvent)
    requires CanRunPipe(p, events) && PipeEnabled(RunPipe(p, events), e)
    ensures CanRunPipe(p, events + [e]) && RunPipe(p, events + [e]) == PipeStep(RunPipe(p, events), e)
    decreases |events|
  {
    hide PipeStep, PipeEnabled;
    if events == [] {
      RunOne(p, e);
    } else {
      RunMore(PipeStep(p, events[0]), events[1..], e);
      assert (events + [e])[1..] == events[1..] + [e];
    }
  }

  const PIXEL := Grayscale.Gray(1, 1, [0xf0])
  const PANEL := Panel(1, 1, true, 4, 0)
  const IDLE := Core(PANEL, false, false, false, 0, 1, false, None, 0, 0, NoRefresh, false, 0, [], 0, Idle)
  const NEW := Pipe(
    IDLE, Latch(Inactive, 0, 0),
    State(None, false, false, false, false, 0, Diagnostics(0, 0, 0, 0, 0, 0, 0), None, Log([], 0, [], 0, 0, 0, 0)),
    History(0, 0, [], []))

  /** The run goes one step further, to `q`. */
  lemma Reach(p: Pipe, events: seq<PipeEvent>, e: PipeEvent, at: Pipe, q: Pipe)
    requires CanRunPipe(p, events) && RunPipe(p, events) == at && PipeEnabled(at, e) && PipeStep(at, e) == q
    ensures CanRunPipe(p, events + [e]) && RunPipe(p, events + [e]) == q
  {
    hide *;
    RunMore(p, events, e);
  }

  const BUSY := IDLE.(
    started := true, enabled := true, captured := true, refreshId := 1, refreshMode := Full, refreshBusy := true,
    refreshRequested := 1)
  const TAKEN := BUSY.(captured := false, nextSequence := 2)

  /** Started and enabled, a refresh asked for, and a capture waiting. */
  lemma RequestPrepared() returns (events: seq<PipeEvent>)
    ensures CanRunPipe(NEW, events) && RunPipe(NEW, events) == NEW.(core := BUSY, adapter := Started(NEW.adapter))
  {
    hide RunPipe, CanRunPipe;
    assert CanRunPipe(NEW, []) && RunPipe(NEW, []) == NEW by { EmptyRun(NEW); }
    var p1 := NEW.(core := IDLE.(started := true));
    Reach(NEW, [], Caller(StartPipe), NEW, p1);
    events := [] + [Caller(StartPipe)];
    var p2 := p1.(adapter := Started(p1.adapter));
    Reach(NEW, events, Adapter(Event.Start), p1, p2);
    events := events + [Adapter(Event.Start)];
    var p3 := p2.(core := p2.core.(enabled := true));
    Reach(NEW, events, Caller(Control.SetEnabled(true)), p2, p3);
    events := events + [Caller(Control.SetEnabled(true))];
    var p4 := p3.(core := BUSY.(captured := false));
    Reach(NEW, events, Caller(RequestRefresh(Full)), p3, p4);
    events := events + [Caller(RequestRefresh(Full))];
    Reach(NEW, events, Caller(Capture), p4, p4.(core := BUSY));
    events := events + [Caller(Capture)];
  }

  lemma EmptyRun(p: Pipe)
    ensures CanRunPipe(p, []) && RunPipe(p, []) == p
  {
  }

  /** The worker has the capture converted, and selected it with the request. */
  lemma RequestSelected() returns (events: seq<PipeEvent>)
    ensures CanRunPipe(NEW, events)
    ensures RunPipe(NEW, events) ==
            NEW.(core := TAKEN.(worker := Selected(1, PIXEL, PassThrough, 0, 1, Full)), adapter := Started(NEW.adapter))
  {
    events := RequestPrepared();
    hide RunPipe, CanRunPipe;
    var p := NEW.(core := BUSY, adapter := Started(NEW.adapter));
    var p1 := p.(core := TAKEN.(worker := Converting(1, 0)));
    Reach(NEW, events, Conversion(Take), p, p1);
    events := events + [Conversion(Take)];
    var p2 := p.(core := TAKEN.(worker := Converted(1, 0, PIXEL)));
    Reach(NEW, events, Conversion(Convert(Some(PIXEL))), p1, p2);
    events := events + [Conversion(Convert(Some(PIXEL)))];
    var p3 := p.(core := TAKEN.(worker := Checked(1, PIXEL)));
    Reach(NEW, events, Conversion(Check), p2, p3);
    events := events + [Conversion(Check)];
    var p4 := p.(core := TAKEN.(worker := Decided(1, PIXEL, PassThrough, 0)));
    Reach(NEW, events, Conversion(Judge), p3, p4);
    events := events + [Conversion(Judge)];
    var p5 := p.(core := TAKEN.(worker := Selected(1, PIXEL, PassThrough, 0, 1, Full)));
    Reach(NEW, events, Conversion(Select(false)), p4, p5);
    events := events + [Conversion(Select(false))];
  }

  const REFRESHING := Frame(1, 0, Some(1), Some([0xf0]), None, Rect(0, 0, 1, 1), 4, 0, false, Full, 1)
  const PENDING := NEW.(core := TAKEN.(refreshId := 0, refreshMode := NoRefresh),
                        adapter := Enqueued(Started(NEW.adapter), REFRESHING))

  /** A run of the fresh pipeline that leaves the request pending in the adapter. */
  lemma RequestPends() returns (events: seq<PipeEvent>)
    ensures IsFreshPipe(NEW) && Unrequested(NEW.core) && CanRunPipe(NEW, events) && RunPipe(NEW, events) == PENDING
    ensures PendingRequest(PENDING.adapter) == 1
  {
    events := RequestSelected();
    hide RunPipe, CanRunPipe;
    var p := NEW.(core := TAKEN.(worker := Selected(1, PIXEL, PassThrough, 0, 1, Full)),
                  adapter := Started(NEW.adapter));
    assert DeliveredFrame(p) == REFRESHING;
    Reach(NEW, events, Conversion(Deliver), p, PENDING);
    events := events + [Conversion(Deliver)];
  }

  /** Stop over it: presentation is disabled, and the pending frame still carries the request. */
  lemma StopLeavesRequest() returns (events: seq<PipeEvent>)
    ensures IsFreshPipe(NEW) && CanRunPipe(NEW, events) && !Quiet(RunPipe(NEW, events))
  {
    events := RequestPends();
    hide RunPipe, CanRunPipe;
    Reach(NEW, events, Caller(StopPipe), PENDING, PipeStopped(PENDING));
    events := events + [Caller(StopPipe)];
  }

  const IMAGE := Candidate(Some([0xf0]), Some([0xff]), None, 1, 1)

  /** A sleep image over it: the request is lost and every later one is refused. */
  lemma PresentLosesRequest() returns (events: seq<PipeEvent>)
    ensures IsFreshPipe(NEW) && Unrequested(NEW.core) && CanRunPipe(NEW, events)
    ensures var p := RunPipe(NEW, events); Tracked(p) && !Live(p)
  {
    events := RequestPends();
    FreshIsTracked(NEW);
    var p := PublishedImage();
    hide RunPipe, CanRunPipe, Tracked, Live;
    Reach(NEW, events, Caller(Publish(1, IMAGE, Opaque, true)), PENDING, p);
    events := events + [Caller(Publish(1, IMAGE, Opaque, true))];
    Reach(NEW, events, Caller(Present(1)), p, Presented(p, 1));
    events := events + [Caller(Present(1))];
    StepFollows(p, Caller(Present(1)));
  }

  lemma PublishedImage() returns (p: Pipe)
    ensures p == Published(PENDING, 1, IMAGE, Opaque, true)
    ensures Tracked(p) && Live(p) && Loses(p, Caller(Present(1)))
  {
    p := Published(PENDING, 1, IMAGE, Opaque, true);
    assert PlacesOf(p) == Places(0, 1, 0, []);
    assert Page(p, 1) == [0xf0];
    assert Overlay.Composite([0xf0], [0xff], [0xf0], []).result == Overlay.Composited;
    hide Overlay.Composite;
    assert Prepared(p, 1).PresentAccepted?;
  }
}
