/** The pipeline's locked sections as methods of an object that owns a latch and an adapter. Every method keeps
    the invariant of `SleepCycle` and is one of its sections. */
module Pipeline {
  import opened Raster
  import opened Wrappers
  import opened Presentation
  import opened SleepCycle
  import Overlay

  lemma SoundCall(p: Pipe, c: Control)
    requires Sound(p)
    ensures Sound(Called(p, c))
  {
    hide Sound, Called;
    StepKeepsSound(p, Caller(c));
  }

  lemma SoundWork(p: Pipe, w: Work)
    requires Sound(p) && WorkEnabled(p, w)
    ensures Sound(Worked(p, w))
  {
    hide Sound, Worked, WorkEnabled;
    StepKeepsSound(p, Conversion(w));
  }

  lemma SoundIsGood(p: Pipe)
    requires Sound(p)
    ensures Good(p.adapter)
  {
    hide Frames, NotNewer, NoFlash, PageIsReal, Good;
  }

  lemma SoundIsNotNewer(p: Pipe)
    requires Sound(p)
    ensures NotNewer(p)
  {
    hide Frames, NotNewer, NoFlash, PageIsReal, Good;
  }

  /** An epoch the latch accepts is above every earlier one. */
  lemma EpochsRise(p: Pipe, epoch: int)
    requires Sound(p)
    ensures ArmOutcome(p.latch, epoch).ArmAccepted? ==> forall e :: e in p.history.armed ==> e < epoch
  {
    hide NotNewer, NoFlash, PageIsReal, Good, OncePerEpoch, Owned;
    var armed := p.history.armed;
    assert Epochs(p.latch, armed, p.history.used);
    if ArmOutcome(p.latch, epoch).ArmAccepted? {
      forall e | e in armed ensures e < epoch {
        var k :| 0 <= k < |armed| && armed[k] == e;
        assert k < |armed| - 1 ==> armed[k] < armed[|armed| - 1];
      }
    }
  }

  /** What a presentation does and promises. */
  lemma PresentSection(p: Pipe, epoch: int)
    requires Sound(p)
    ensures Called(p, Present(epoch))
         == if Prepared(p, epoch).PresentAccepted? then Queued(p, epoch, SleepFrame(p, epoch)) else p
    ensures Prepared(p, epoch)
         == if BeforeLatch(p, epoch).PresentAccepted? then ToPresent(ArmOutcome(p.latch, epoch))
            else BeforeLatch(p, epoch)
    ensures PresentOf(p, epoch) == if !Prepared(p, epoch).PresentAccepted? then Prepared(p, epoch)
                                   else if Accepts(p.adapter, SleepFrame(p, epoch)) then PresentAccepted
                                   else PresentEnqueue
    ensures PresentOf(p, epoch).PresentAccepted? ==>
      && Held(Called(p, Present(epoch)), epoch) && PendingEpoch(Called(p, Present(epoch)).adapter) == epoch
      && !UsedBy(p.history.used, epoch)
  {
    hide Good, NoFlash, PageIsReal, SleepFrame, BeforeLatch, Accepts, Enqueued, Composed, ValidCandidate;
    if PresentOf(p, epoch).PresentAccepted? {
      SleepFrameFacts(p, epoch);
      PresentHolds(p, epoch);
      assert Frames(p);
      FreshEpoch(p.adapter.log.accepted, p.latch, p.history.armed, p.history.used, epoch);
    }
  }

  lemma DisarmSection(p: Pipe, epoch: int)
    requires Sound(p)
    ensures DisarmOutcome(p.latch, epoch).DisarmAccepted? ==>
      && (Withdrawn(Called(p, Disarm(epoch)), epoch) <==> Carried(p.core.worker) != epoch)
      && (Use(epoch, true) in p.history.used ==> Carried(p.core.worker) != epoch)
  {
    hide Good, NotNewer, NoFlash, PageIsReal, Withdrawn, SleepCancelled, Carried, OncePerEpoch, PendingEpoch, Absent;
    if DisarmOutcome(p.latch, epoch).DisarmAccepted? {
      DisarmLeavesNothing(p, epoch);
      OneUse(p.latch, p.history.armed, p.history.used, epoch);
    }
  }

  /** A replacement is judged for an armed epoch that nothing has used. */
  lemma JudgeSection(p: Pipe)
    requires Sound(p) && p.core.worker.Checked?
    ensures var g := p.core.worker.gray;
            var c := Chosen(p.core.catalog, g.width, g.height);
            && (Judged(p.latch, g, c) == Replace ==> p.latch.active != 0 && !UsedBy(p.history.used, p.latch.active))
            && LatchAfter(p.latch, g, c).active == p.latch.active
  {
    hide Good, NotNewer, NoFlash, PageIsReal;
    assert Frames(p);
    var g := p.core.worker.gray;
    var c := Chosen(p.core.catalog, g.width, g.height);
    JudgementFacts(p.latch, g, c);
    hide Judged, LatchAfter, Shown, Chosen;
    if Judged(p.latch, g, c) == Replace {
      FreshEpoch(p.adapter.log.accepted, p.latch, p.history.armed, p.history.used, p.latch.active);
    }
  }

  lemma DeliveredEpoch(p: Pipe)
    requires p.core.worker.Selected?
    ensures DeliveredFrame(p).sleepEpoch == Carried(p.core.worker)
    ensures RefreshStands(p) ==> p.core.worker.refreshId != 0
  {
  }

  class EinkPipeline {
    const latch: SleepImageLatch
    const adapter: PresentationAdapter
    var core: Core
    ghost var history: History

    ghost function Abs(): Pipe
      reads this, latch, adapter
    {
      Pipe(core, latch.Abs(), adapter.Abs(), history)
    }

    ghost predicate Valid()
      reads this, latch, adapter
    {
      Sound(Abs())
    }

    constructor (panel: Panel)
      ensures Valid() && IsFreshPipe(Abs()) && core.panel == panel && fresh(latch) && fresh(adapter)
      ensures core.refreshId == 0 && !core.refreshBusy
    {
      hide IsFresh, Good, Sound;
      latch := new SleepImageLatch();
      adapter := new PresentationAdapter();
      core := Core(panel, false, false, false, 0, 1, false, None, 0, 0, NoRefresh, false, 0, [], 0, Idle);
      history := History(0, 0, [], []);
      new;
      FreshIsSound(Abs());
    }

    // ---------- lifecycle ----------

    method Start()
      requires Valid()
      modifies this
      ensures Valid() && Abs() == Called(old(Abs()), StartPipe)
      ensures old(core.stopping) ==> core == old(core)
    {
      hide Sound, Good;
      SoundCall(Abs(), StartPipe);
      if core.started || core.stopping { return; }
      core := core.(started := true);
    }

    /** The locked section; joining the threads comes after it. */
    method Stop()
      requires Valid()
      modifies this
      ensures Valid() && Abs() == Called(old(Abs()), StopPipe)
      ensures Running(old(core)) ==> core.stopping && !core.enabled && !core.captured
    {
      hide Sound, Good;
      SoundCall(Abs(), StopPipe);
      if !core.started || core.stopping { return; }
      core := core.(stopping := true);
      core := core.(enabled := false);
      core := core.(captured := false);
    }

    /** Behind the locked section of `Start` the adapter starts, so from then on it takes usable frames. */
    method StartAdapter()
      requires Valid() && PipeEnabled(Abs(), Adapter(Event.Start))
      modifies adapter
      ensures Valid() && Abs() == PipeStep(old(Abs()), Adapter(Event.Start))
      ensures !old(adapter.stopping) ==> adapter.started
    {
      hide Sound, Good;
      SoundIsGood(Abs());
      StepKeepsSound(Abs(), Adapter(Event.Start));
      adapter.StartWorker();
    }

    /** Behind `Stop`, once the conversion worker has ended: nothing stays pending, and nothing more is taken. */
    method StopAdapter()
      requires Valid() && PipeEnabled(Abs(), Adapter(Event.Stop))
      modifies adapter
      ensures Valid() && Abs() == PipeStep(old(Abs()), Adapter(Event.Stop))
      ensures old(adapter.started) ==>
        adapter.stopping && adapter.pending.None? && forall f :: !Accepts(adapter.Abs(), f)
    {
      hide Sound, Scheduled;
      SoundIsGood(Abs());
      StepKeepsSound(Abs(), Adapter(Event.Stop));
      adapter.StopWorker();
    }

    /** While disabled no diagnostic request is pending or prepared. */
    method SetEnabled(on: bool)
      requires Valid()
      modifies this, adapter
      ensures Valid() && Abs() == Called(old(Abs()), Control.SetEnabled(on))
      ensures Running(core) && !on ==> !core.enabled && PendingRequest(adapter.Abs()) == 0 && core.refreshId == 0
    {
      hide Sound, Good, DiagnosticCancelled, SleepCancelled, PendingRequest, PendingEpoch;
      SoundCall(Abs(), Control.SetEnabled(on));
      SoundIsGood(Abs());
      CancelledFacts(adapter.Abs(), 0);
      if core.started && !core.stopping {
        core := core.(enabled := on);
        if !on {
          var cancelled := adapter.CancelPendingDiagnosticRefresh();
          core := Cleared(core);
        }
      }
    }

    /** Every conversion before the generation check is outdated, and the page is gone. */
    method ResetForSourceChange()
      requires Valid()
      modifies this
      ensures Valid() && Abs() == Called(old(Abs()), ResetSource)
      ensures Running(core) ==>
        !core.captured && core.background == []
        && (BeforeCheck(core.worker) ==> core.worker.generation < core.generation)
    {
      hide Sound, Good;
      SoundCall(Abs(), ResetSource);
      SoundIsNotNewer(Abs());
      if !core.started || core.stopping { return; }
      core := core.(generation := core.generation + 1);
      core := core.(captured := false);
      ReleaseBackground();
    }

    method ReleaseBackground()
      modifies this`core, this`history
      ensures core == WithoutPage(old(core))
      ensures history == old(history).(released := old(history).observed)
    {
      core := core.(background := []);
      core := core.(backgroundSequence := 0);
      history := history.(released := history.observed);
    }

    // ---------- sleep cycles ----------

    /** The catalog's epoch only rises, and an older or equal one never replaces it. */
    method PublishSleepImageCatalog(epoch: int, selected: Candidate, mode: Mode, valid: bool) returns (accepted: bool)
      requires Valid()
      modifies this
      ensures Valid() && Abs() == Called(old(Abs()), Publish(epoch, selected, mode, valid))
      ensures accepted <==> valid && epoch != 0 && !core.stopping && epoch > old(core.catalogEpoch)
      ensures old(core.catalogEpoch) <= core.catalogEpoch && (accepted <==> core.catalogEpoch != old(core.catalogEpoch))
    {
      hide Sound, Good;
      SoundCall(Abs(), Publish(epoch, selected, mode, valid));
      if epoch == 0 || !valid { return false; }
      if core.stopping { return false; }
      if epoch <= core.catalogEpoch { return false; }
      core := core.(catalog := Some(Catalog(selected, mode)));
      core := core.(catalogEpoch := epoch);
      return true;
    }

    /** An accepted epoch is above every earlier one, and no diagnostic request survives it. */
    method ArmSleepCycle(epoch: int) returns (r: ArmResult)
      requires Valid()
      modifies this, latch, adapter
      ensures Valid() && Abs() == Called(old(Abs()), Arm(epoch)) && r == ArmOf(old(Abs()), epoch)
      ensures r.ArmAccepted? ==>
        && latch.Abs() == Latch(Armed, epoch, epoch) && (forall e :: e in old(history.armed) ==> e < epoch)
        && PendingRequest(adapter.Abs()) == 0 && core.refreshId == 0
    {
      hide Sound, Good, DiagnosticCancelled, SleepCancelled, PendingRequest, PendingEpoch;
      SoundCall(Abs(), Arm(epoch));
      SoundIsGood(Abs());
      EpochsRise(Abs(), epoch);
      CancelledFacts(adapter.Abs(), 0);
      r := ArmMismatched;
      if !core.stopping && epoch != 0 && epoch == core.catalogEpoch { r := latch.ArmSleepCycle(epoch); }
      if r == ArmAccepted {
        history := history.(armed := history.armed + [epoch]);
        var cancelled := adapter.CancelPendingDiagnosticRefresh();
        core := Cleared(core);
      }
    }

    /** The checks and the composition before the latch is touched. */
    method PrepareImage(epoch: int) returns (r: PresentResult, frame: Option<Frame>)
      ensures r == BeforeLatch(Abs(), epoch)
      ensures r.PresentAccepted? ==> ReadyImage(Abs()) && frame == Some(SleepFrame(Abs(), epoch))
    {
      hide Overlay.Composite;
      if epoch == 0 { return PresentZero, None; }
      if !core.started || core.stopping || !core.enabled { return PresentUnavailable, None; }
      if core.catalog.None? || epoch != core.catalogEpoch { return PresentCatalog, None; }
      var candidate, panel := core.catalog.value.selected, core.panel;
      var panelBytes := PanelBytes(panel);
      if candidate.buffer.None? || candidate.width != panel.width || candidate.height != panel.height
         || |candidate.buffer.value| != panelBytes || candidate.alpha.None? || |candidate.alpha.value| != panelBytes {
        return PresentCatalog, None;
      }
      var rgba := if candidate.rgba.Some? then candidate.rgba.value else [];
      var page := core.background;
      if core.catalog.value.mode == Overlaid {
        if page == [] { return PresentBackground, None; }
      } else {
        page := seq(|candidate.buffer.value|, _ => 0xf0);
      }
      var prepared := Overlay.ComposeSleepImageOverlay(candidate.buffer.value, candidate.alpha.value, page, rgba);
      assert prepared == Composed(Abs());
      if prepared.result != Overlay.Composited { return PresentAlpha, None; }
      frame := Some(Frame(
        core.nextSequence, epoch, None, Some(prepared.panelGray),
        if prepared.rgba == [] then None else Some(prepared.rgba),
        Rect(0, 0, candidate.width, candidate.height), panel.engineMode, panel.policyFlag, false, NoRefresh, 0));
      r := PresentAccepted;
    }

    /** Arms and consumes the epoch in one go. */
    method ClaimEpoch(epoch: int) returns (r: PresentResult)
      modifies latch
      ensures r == ToPresent(ArmOutcome(old(latch.Abs()), epoch)) && (r.PresentAccepted? ==> epoch != 0)
      ensures latch.Abs() == if r.PresentAccepted? then Latch(Consumed, epoch, epoch) else old(latch.Abs())
    {
      var arm := latch.ArmSleepCycle(epoch);
      match arm {
        case ArmAccepted =>
        case ArmZero => return PresentZero;
        case ArmStale => return PresentStale;
        case ArmDuplicate => return PresentDuplicate;
        case ArmMismatched => return PresentMismatched;
      }
      r := latch.BeginPresentation(epoch);
    }

    /** The claimed epoch's frame replaces every older capture; when the adapter refuses it the cycle ends. */
    method QueueSleepFrame(epoch: int, frame: Frame) returns (r: PresentResult)
      requires adapter.Valid() && latch.Abs() == Latch(Consumed, epoch, epoch) && epoch != 0
      modifies this, latch, adapter
      ensures adapter.Valid() && Abs() == Queued(old(Abs()), epoch, frame)
      ensures r == if Accepts(old(adapter.Abs()), frame) then PresentAccepted else PresentEnqueue
    {
      hide Good, Accepts, Enqueued;
      history := history.(armed := history.armed + [epoch], used := history.used + [Use(epoch, true)]);
      core := core.(generation := core.generation + 1, captured := false, nextSequence := core.nextSequence + 1);
      var accepted := adapter.EnqueueFrame(frame);
      r := PresentAccepted;
      if !accepted {
        var ended := latch.DisarmSleepCycle(epoch);
        r := PresentEnqueue;
      }
    }

    /** An accepted presentation starts a held cycle with its frame pending; the epoch was never used before. */
    method PresentSleepImage(epoch: int) returns (r: PresentResult)
      requires Valid()
      modifies this, latch, adapter
      ensures Valid() && Abs() == Called(old(Abs()), Present(epoch)) && r == PresentOf(old(Abs()), epoch)
      ensures r.PresentAccepted? ==>
        Held(Abs(), epoch) && PendingEpoch(adapter.Abs()) == epoch && !UsedBy(old(history.used), epoch)
    {
      hide Sound, Good, PresentOf, BeforeLatch, ToPresent, ArmOutcome, SleepFrame, ReadyImage, Held, Accepts,
        Enqueued, PendingEpoch;
      SoundCall(Abs(), Present(epoch));
      SoundIsGood(Abs());
      PresentSection(Abs(), epoch);
      ghost var before := Abs();
      var frame;
      r, frame := PrepareImage(epoch);
      if r != PresentAccepted { return; }
      r := ClaimEpoch(epoch);
      if r != PresentAccepted { return; }
      r := QueueSleepFrame(epoch, frame.value);
    }

    /** After an accepted disarm nothing of the epoch is pending or can come, unless the worker carries its
        replacement image; a directly presented epoch is always withdrawn. */
    method DisarmSleepCycle(epoch: int) returns (r: DisarmResult)
      requires Valid()
      modifies this, latch, adapter
      ensures Valid() && Abs() == Called(old(Abs()), Disarm(epoch)) && r == DisarmOutcome(old(latch.Abs()), epoch)
      ensures r.DisarmAccepted? ==>
        && core.background == [] && (Withdrawn(Abs(), epoch) <==> Carried(core.worker) != epoch)
        && (Use(epoch, true) in history.used ==> Withdrawn(Abs(), epoch))
    {
      hide Sound, Good, SleepCancelled, Withdrawn, Carried;
      SoundCall(Abs(), Disarm(epoch));
      SoundIsGood(Abs());
      DisarmSection(Abs(), epoch);
      r := latch.DisarmSleepCycle(epoch);
      if r == DisarmAccepted {
        var withdrawn := adapter.CancelPendingSleepImage(epoch);
        ReleaseBackground();
      }
    }

    // ---------- captures and diagnostic requests ----------

    /** A capture waits exactly when one did or this one is taken; a consumed epoch takes none. */
    method OnCapturedComposition()
      requires Valid()
      modifies this
      ensures Valid() && Abs() == Called(old(Abs()), Capture)
      ensures core.captured <==> old(core.captured) || (Running(core) && core.enabled && latch.state != Consumed)
    {
      hide Sound, Good;
      SoundCall(Abs(), Capture);
      if !core.started || core.stopping || !core.enabled { return; }
      if latch.state == Consumed { return; }
      core := core.(captured := true);
    }

    /** A granted request gets a new number, one at a time, only while enabled and awake. */
    method RequestDiagnosticRefresh(refresh: Refresh) returns (id: int)
      requires Valid()
      modifies this
      ensures Valid() && Abs() == Called(old(Abs()), RequestRefresh(refresh))
      ensures id != 0 ==>
        && id == core.refreshId == core.refreshRequested == old(core.refreshRequested) + 1 && !old(core.refreshBusy)
        && core.enabled && latch.activeEpoch == 0
      ensures id == 0 ==> core == old(core)
    {
      hide Sound, Good;
      SoundCall(Abs(), RequestRefresh(refresh));
      if !core.panel.color || !core.started || core.stopping || !core.enabled || latch.activeEpoch != 0
         || core.refreshBusy || refresh == NoRefresh {
        return 0;
      }
      core := core.(refreshBusy := true);
      core := core.(refreshRequested := core.refreshRequested + 1);
      core := core.(refreshId := core.refreshRequested);
      core := core.(refreshMode := refresh);
      return core.refreshId;
    }

    /** Afterwards the numbered request is not prepared; any other is untouched. */
    method CancelDiagnosticRefresh(id: int)
      requires Valid()
      modifies this
      ensures Valid() && Abs() == Called(old(Abs()), CancelRefresh(id))
      ensures id != 0 ==>
        core.refreshId != id && (old(core.refreshId) == id ==> core.refreshId == 0 && !core.refreshBusy)
      ensures old(core.refreshId) != id ==> core == old(core)
    {
      hide Sound, Good;
      SoundCall(Abs(), CancelRefresh(id));
      if id != 0 && core.refreshId == id { core := Cleared(core); }
    }

    // ---------- the conversion worker ----------

    /** A taken capture is stamped with the current source generation and a sequence of its own. */
    method TakeCapture()
      requires Valid() && WorkEnabled(Abs(), Take)
      modifies this
      ensures Valid() && Abs() == Worked(old(Abs()), Take)
      ensures core.worker.Converting? <==> old(core.captured) && !core.stopping
      ensures core.worker.Converting? ==>
        !core.captured && core.worker.generation == core.generation && core.worker.sequence < core.nextSequence
    {
      hide Sound, Good;
      SoundWork(Abs(), Take);
      if core.stopping || !core.captured { return; }
      core := core.(captured := false);
      core := core.(worker := Converting(core.nextSequence, core.generation));
      core := core.(nextSequence := core.nextSequence + 1);
    }

    /** A failed conversion leaves no prepared request; a good one keeps its generation. */
    method FinishConversion(result: Option<Gray>)
      requires Valid() && WorkEnabled(Abs(), Convert(result))
      modifies this
      ensures Valid() && Abs() == Worked(old(Abs()), Convert(result))
      ensures result.None? ==> core.worker.Idle? && core.refreshId == 0
      ensures result.Some? ==>
        core.worker.Converted? && core.worker.generation == old(core.worker.generation)
        && core.worker.gray == result.value
    {
      hide Sound, Good;
      SoundWork(Abs(), Convert(result));
      if result.None? {
        if core.refreshId != 0 { core := Cleared(core); }
        core := core.(worker := Idle);
        return;
      }
      core := core.(worker := Converted(core.worker.sequence, core.worker.generation, result.value));
    }

    /** A conversion goes on exactly when no reset and no presentation came since its capture was taken. */
    method CheckGeneration()
      requires Valid() && WorkEnabled(Abs(), Check)
      modifies this
      ensures Valid() && Abs() == Worked(old(Abs()), Check)
      ensures core.worker.Checked? <==> old(core.worker.generation) == core.generation
      ensures !core.worker.Checked? ==> core.worker.Idle?
    {
      hide Sound, Good;
      SoundWork(Abs(), Check);
      if core.worker.generation != core.generation {
        core := core.(worker := Idle);
        return;
      }
      core := core.(worker := Checked(core.worker.sequence, core.worker.gray));
    }

    /** A replacement uses the active epoch, which nothing used before, and the worker carries it. */
    method JudgeFrame()
      requires Valid() && WorkEnabled(Abs(), Judge)
      modifies this, latch
      ensures Valid() && Abs() == Worked(old(Abs()), Judge)
      ensures core.worker.Decided? && core.worker.decision == Replace ==>
        && Carried(core.worker) == latch.activeEpoch != 0
        && Use(latch.activeEpoch, false) in history.used && !UsedBy(old(history.used), latch.activeEpoch)
      ensures latch.activeEpoch == old(latch.activeEpoch)
    {
      hide Sound, Good, Judged, LatchAfter, Shown, UsedBy;
      SoundWork(Abs(), Judge);
      var gray := core.worker.gray;
      JudgeSection(Abs());
      var selector := MakeSelector();
      var decision, shown := latch.Evaluate(gray, selector);
      if decision == Replace { history := history.(used := history.used + [Use(latch.activeEpoch, false)]); }
      core := core.(worker := if decision == Suppress then Idle
        else Decided(core.worker.sequence, shown, decision, latch.activeEpoch));
    }

    /** The published image as the latch asks for it, by size. */
    method MakeSelector() returns (selector: Option<(int, int) -> Candidate>)
      ensures selector.Some? <==> core.catalog.Some?
      ensures selector.Some? ==> forall w: int, h: int :: Some(selector.value(w, h)) == Chosen(core.catalog, w, h)
    {
      var catalog := core.catalog;
      if catalog.None? { return None; }
      var selected := catalog.value.selected;
      selector := Some((w: int, h: int) =>
        if selected.width != w || selected.height != h then Candidate(None, None, None, 0, 0) else selected);
    }

    /** A request goes along only while enabled and awake; a replacement is never dropped. */
    method SelectRefresh(same: bool)
      requires Valid() && WorkEnabled(Abs(), Select(same))
      modifies this
      ensures Valid() && Abs() == Worked(old(Abs()), Select(same))
      ensures core.worker.Selected? && core.worker.refreshId != 0
        ==> core.enabled && latch.activeEpoch == 0 && core.worker.refreshId == core.refreshId
      ensures Carried(core.worker) == old(Carried(core.worker))
    {
      hide Sound, Good;
      SoundWork(Abs(), Select(same));
      var w, id, mode := core.worker, 0, NoRefresh;
      if core.enabled && latch.activeEpoch == 0 { id, mode := core.refreshId, core.refreshMode; }
      if same && w.decision != Replace && id == 0 {
        core := core.(worker := Idle);
        return;
      }
      core := core.(worker := Selected(w.sequence, w.gray, w.decision, w.epoch, id, mode));
    }

    /** The frame as it is handed over, and the request that still stands with it, or zero. */
    method AssembleFrame() returns (frame: Frame, id: int)
      requires core.worker.Selected?
      ensures frame == DeliveredFrame(Abs()) && id == if RefreshStands(Abs()) then core.worker.refreshId else 0
      ensures id != 0 <==> RefreshStands(Abs())
    {
      var w, panel, mode := core.worker, core.panel, core.worker.refreshMode;
      id := w.refreshId;
      if id != 0 && (core.refreshId != id || !core.enabled || latch.activeEpoch != 0) { id, mode := 0, NoRefresh; }
      frame := Frame(
        w.sequence, if w.decision == Replace then w.epoch else 0, if panel.color then Some(w.sequence) else None,
        Some(w.gray.pixels), None, Rect(0, 0, w.gray.width, w.gray.height), panel.engineMode, panel.policyFlag, false,
        mode, id);
    }

    /** The final check and the enqueue in one section; a carried replacement becomes the pending frame. */
    method DeliverFrame() returns (enqueued: bool)
      requires Valid() && WorkEnabled(Abs(), Deliver)
      modifies this, adapter
      ensures Valid() && Abs() == Worked(old(Abs()), Deliver) && core.worker.Idle?
      ensures enqueued ==> PendingEpoch(adapter.Abs()) == old(Carried(core.worker))
      ensures enqueued <==> |adapter.log.accepted| == |old(adapter.log.accepted)| + 1
    {
      hide Sound, Good, Accepts, Enqueued, RefreshStands, PendingEpoch, PendingRequest;
      SoundWork(Abs(), Deliver);
      SoundIsGood(Abs());
      ghost var stands := RefreshStands(Abs());
      DeliveredEpoch(Abs());
      var frame, id := AssembleFrame();
      EnqueuedFacts(adapter.Abs(), frame);
      if id != 0 { core := core.(refreshId := 0, refreshMode := NoRefresh); }
      enqueued := adapter.EnqueueFrame(frame);
      if !enqueued && id != 0 { core := core.(refreshBusy := false); }
      core := core.(worker := Idle);
    }

    // ---------- the adapter's own worker ----------

    method PollAdapter(now: int, interval: int) returns (took: bool)
      requires Valid() && PipeEnabled(Abs(), Adapter(Poll(now, interval)))
      modifies adapter
      ensures Valid() && Abs() == PipeStep(old(Abs()), Adapter(Poll(now, interval)))
    {
      hide Sound, Good;
      SoundIsGood(Abs());
      StepKeepsSound(Abs(), Adapter(Poll(now, interval)));
      took := adapter.PollPending(now, interval);
    }

    method FinishAdapterSubmit(start: int, finish: int, accepted: bool)
      requires Valid() && PipeEnabled(Abs(), Adapter(Return(start, finish, accepted)))
      modifies adapter
      ensures Valid() && Abs() == PipeStep(old(Abs()), Adapter(Return(start, finish, accepted)))
    {
      hide Sound, Good;
      SoundIsGood(Abs());
      StepKeepsSound(Abs(), Adapter(Return(start, finish, accepted)));
      adapter.FinishSubmit(start, finish, accepted);
    }

    /** The callback on the next submission: page retention and the end of a request. */
    method OnEngineSubmission(submission: Submission)
      requires Valid() && PipeEnabled(Abs(), Observe) && submission == adapter.log.submissions[history.observed]
      modifies this
      ensures Valid() && Abs() == PipeStep(old(Abs()), Observe)
      ensures old(core.backgroundSequence) <= core.backgroundSequence
      ensures old(core.refreshBusy) && !core.refreshBusy
        ==> submission.flight.frame.request == core.refreshRequested != 0
    {
      hide Sound, Good, Retainable, WithPage;
      StepKeepsSound(Abs(), Observe);
      RetainPage(submission);
      var frame := submission.flight.frame;
      if frame.request != 0 && frame.request == core.refreshRequested { core := core.(refreshBusy := false); }
      
      history := history.(observed := history.observed + 1);
    }

    /** A newer page that can serve replaces the retained one. */
    method RetainPage(submission: Submission)
      modifies this`core
      ensures core == WithPage(old(core), submission)
      ensures core == old(core).(background := core.background, backgroundSequence := core.backgroundSequence)
      ensures old(core.backgroundSequence) <= core.backgroundSequence
    {
      hide Overlay.PanelGray;
      var fits := Retains(submission);
      var frame := submission.flight.frame;
      if fits && frame.sequence > core.backgroundSequence {
        core := core.(background := frame.grayscale.value, backgroundSequence := frame.sequence);
      }
    }

    /** The page store's checks of one submission. */
    method Retains(submission: Submission) returns (fits: bool)
      ensures fits == Retainable(core.panel, submission)
    {
      var frame, panel := submission.flight.frame, core.panel;
      if !submission.accepted || frame.sleepEpoch != 0 || frame.sequence == 0 { return false; }
      if frame.dirty != Rect(0, 0, panel.width, panel.height) { return false; }
      if panel.width <= 0 || panel.height <= 0 || frame.grayscale.None? { return false; }
      if |frame.grayscale.value| != panel.width * panel.height { return false; }
      fits := Overlay.IsPanelGray(frame.grayscale.value);
    }
  }
}
