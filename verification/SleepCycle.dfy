/** Sleep-image cycles: the latch, the catalog epoch, direct presentation, and the conversion worker,
    composed with the presentation adapter. Every locked section of the pipeline is one step. */
module SleepCycle {
  import opened Bits
  import opened Raster
  import opened Wrappers
  import opened Presentation
  import Overlay
  import Grayscale

  // ---------- the latch ----------

  datatype LatchState = Inactive | Armed | Consumed | BlackFallback
  datatype Latch = Latch(state: LatchState, lastArmed: int, active: int)

  datatype ArmResult = ArmAccepted | ArmZero | ArmStale | ArmDuplicate | ArmMismatched
  datatype DisarmResult = DisarmAccepted | DisarmZero | DisarmInactive | DisarmMismatched
  datatype PresentResult =
    | PresentAccepted | PresentZero | PresentStale | PresentInactive | PresentMismatched | PresentDuplicate
    | PresentCatalog | PresentUnavailable | PresentEnqueue | PresentAlpha | PresentBackground
  datatype Decision = PassThrough | Replace | Suppress

  function ArmOutcome(l: Latch, epoch: int): ArmResult {
    if epoch == 0 then ArmZero
    else if epoch < l.lastArmed then ArmStale
    else if epoch == l.lastArmed then ArmDuplicate
    else if l.active != 0 then ArmMismatched
    else ArmAccepted
  }

  function ArmedBy(l: Latch, epoch: int): Latch {
    if ArmOutcome(l, epoch).ArmAccepted? then Latch(Armed, epoch, epoch) else l
  }

  function BeginOutcome(l: Latch, epoch: int): PresentResult {
    if epoch == 0 then PresentZero
    else if l.active == 0 then PresentInactive
    else if epoch != l.active then PresentMismatched
    else if l.state != Armed then PresentDuplicate
    else PresentAccepted
  }

  function BegunBy(l: Latch, epoch: int): Latch {
    if BeginOutcome(l, epoch).PresentAccepted? then l.(state := Consumed) else l
  }

  function DisarmOutcome(l: Latch, epoch: int): DisarmResult {
    if epoch == 0 then DisarmZero
    else if l.active == 0 then DisarmInactive
    else if epoch != l.active then DisarmMismatched
    else DisarmAccepted
  }

  function DisarmedBy(l: Latch, epoch: int): Latch {
    if DisarmOutcome(l, epoch).DisarmAccepted? then l.(active := 0, state := Inactive) else l
  }

  /** A converted frame: its gray bytes over its full extent. */
  type Gray = Grayscale.Gray

  datatype Candidate = Candidate(
    buffer: Option<seq<byte>>, alpha: Option<seq<byte>>, rgba: Option<seq<byte>>, width: int, height: int)

  const MAX_SLEEP_GRAY: byte := 96

  predicate FullFrame(g: Gray) {
    g.width > 0 && g.height > 0 && g.width <= INT_MAX / g.height && |g.pixels| == g.width * g.height
  }

  predicate Dark(g: Gray) {
    forall i :: 0 <= i < |g.pixels| ==> g.pixels[i] <= MAX_SLEEP_GRAY
  }

  /** The selector's answer fits the frame. */
  predicate Fits(selected: Option<Candidate>, g: Gray) {
    && selected.Some? && selected.value.buffer.Some?
    && selected.value.width == g.width && selected.value.height == g.height
    && |selected.value.buffer.value| == |g.pixels|
  }

  function Judged(l: Latch, g: Gray, selected: Option<Candidate>): Decision {
    if !FullFrame(g) || !Dark(g) || l.state == Inactive || l.state == BlackFallback then PassThrough
    else if l.state == Consumed then Suppress
    else if Fits(selected, g) then Replace
    else PassThrough
  }

  function LatchAfter(l: Latch, g: Gray, selected: Option<Candidate>): Latch {
    if FullFrame(g) && Dark(g) && l.state == Armed
      then l.(state := if Fits(selected, g) then Consumed else BlackFallback)
    else l
  }

  function Shown(l: Latch, g: Gray, selected: Option<Candidate>): Gray {
    if Judged(l, g, selected) == Replace then g.(pixels := selected.value.buffer.value) else g
  }

  // ---------- the pipeline's state ----------

  datatype Mode = Opaque | Overlaid
  datatype Catalog = Catalog(selected: Candidate, mode: Mode)
  datatype Panel = Panel(width: int, height: int, color: bool, engineMode: int, policyFlag: int)

  /** Where the conversion worker stands between two of its locked sections. */
  datatype Worker =
    | Idle
    | Converting(sequence: nat, generation: int)
    | Converted(sequence: nat, generation: int, gray: Gray)
    | Checked(sequence: nat, gray: Gray)
    | Decided(sequence: nat, gray: Gray, decision: Decision, epoch: int)
    | Selected(sequence: nat, gray: Gray, decision: Decision, epoch: int, refreshId: int, refreshMode: Refresh)

  /** How an epoch's one image was used. */
  datatype Use = Use(epoch: int, direct: bool)

  /** The pipeline's own fields, with the worker's local variables. */
  datatype Core = Core(
    panel: Panel, started: bool, stopping: bool, enabled: bool, generation: int, nextSequence: nat, captured: bool,
    catalog: Option<Catalog>, catalogEpoch: int,
    refreshId: int, refreshMode: Refresh, refreshBusy: bool, refreshRequested: nat,
    background: seq<byte>, backgroundSequence: nat, worker: Worker)

  /** What the pipeline has done: the submissions its callback saw, how many of them by the last release of the page,
      the epochs armed and the uses of them. */
  datatype History = History(observed: nat, released: nat, armed: seq<int>, used: seq<Use>)

  datatype Pipe = Pipe(core: Core, latch: Latch, adapter: State, history: History)

  /** Locked sections entered by callers. */
  datatype Control =
    | StartPipe | StopPipe | SetEnabled(on: bool) | ResetSource
    | Publish(newEpoch: int, selected: Candidate, mode: Mode, valid: bool)
    | Arm(epoch: int) | Present(epoch: int) | Disarm(epoch: int) | Capture
    | RequestRefresh(refresh: Refresh) | CancelRefresh(id: int)

  /** Locked sections of the conversion worker. */
  datatype Work = Take | Convert(result: Option<Gray>) | Check | Judge | Select(same: bool) | Deliver

  datatype PipeEvent = Caller(call: Control) | Conversion(work: Work) | Adapter(event: Event) | Observe

  /** No diagnostic request is prepared any more. */
  function Cleared(c: Core): Core { c.(refreshId := 0, refreshBusy := false, refreshMode := NoRefresh) }

  predicate Running(c: Core) { c.started && !c.stopping }

  // ---------- lifecycle sections ----------

  function PipeStarted(p: Pipe): Pipe {
    if p.core.started || p.core.stopping then p else p.(core := p.core.(started := true))
  }

  function PipeStopped(p: Pipe): Pipe {
    if !Running(p.core) then p else p.(core := p.core.(stopping := true, enabled := false, captured := false))
  }

  function EnabledAs(p: Pipe, on: bool): Pipe {
    if !Running(p.core) then p
    else if on then p.(core := p.core.(enabled := true))
    else p.(core := Cleared(p.core.(enabled := false)), adapter := DiagnosticCancelled(p.adapter))
  }

  function WithoutPage(c: Core): Core { c.(background := [], backgroundSequence := 0) }

  function SourceReset(p: Pipe): Pipe {
    if !Running(p.core) then p
    else
      p.(core := WithoutPage(p.core.(generation := p.core.generation + 1, captured := false)),
         history := p.history.(released := p.history.observed))
  }

  predicate Publishes(p: Pipe, epoch: int, valid: bool) {
    epoch != 0 && valid && !p.core.stopping && epoch > p.core.catalogEpoch
  }

  function Published(p: Pipe, epoch: int, selected: Candidate, mode: Mode, valid: bool): Pipe {
    if !Publishes(p, epoch, valid) then p
    else p.(core := p.core.(catalog := Some(Catalog(selected, mode)), catalogEpoch := epoch))
  }

  function ArmOf(p: Pipe, epoch: int): ArmResult {
    if p.core.stopping || epoch == 0 || epoch != p.core.catalogEpoch then ArmMismatched else ArmOutcome(p.latch, epoch)
  }

  function CycleArmed(p: Pipe, epoch: int): Pipe {
    if !ArmOf(p, epoch).ArmAccepted? then p
    else
      Pipe(Cleared(p.core), ArmedBy(p.latch, epoch), DiagnosticCancelled(p.adapter),
           p.history.(armed := p.history.armed + [epoch]))
  }

  function PanelBytes(panel: Panel): int { panel.width * panel.height }

  predicate ValidCandidate(c: Candidate, panel: Panel) {
    && c.buffer.Some? && c.width == panel.width && c.height == panel.height
    && |c.buffer.value| == PanelBytes(panel) && c.alpha.Some? && |c.alpha.value| == PanelBytes(panel)
  }

  /** The page an image is laid over. */
  function Page(p: Pipe, size: nat): (page: seq<byte>)
    requires p.core.catalog.Some?
  {
    if p.core.catalog.value.mode == Overlaid then p.core.background else seq(size, _ => 0xf0)
  }

  function Composed(p: Pipe): Overlay.Output
    requires ReadyImage(p)
  {
    var c := p.core.catalog.value.selected;
    Overlay.Composite(c.buffer.value, c.alpha.value, Page(p, |c.buffer.value|),
                      if c.rgba.Some? then c.rgba.value else [])
  }

  function ToPresent(r: ArmResult): PresentResult {
    match r
    case ArmAccepted => PresentAccepted
    case ArmZero => PresentZero
    case ArmStale => PresentStale
    case ArmDuplicate => PresentDuplicate
    case ArmMismatched => PresentMismatched
  }

  predicate ReadyImage(p: Pipe) { p.core.catalog.Some? && ValidCandidate(p.core.catalog.value.selected, p.core.panel) }

  /** What stops a presentation before the latch is touched. */
  function BeforeLatch(p: Pipe, epoch: int): PresentResult {
    if epoch == 0 then PresentZero
    else if !p.core.started || p.core.stopping || !p.core.enabled then PresentUnavailable
    else if p.core.catalog.None? || epoch != p.core.catalogEpoch then PresentCatalog
    else if !ValidCandidate(p.core.catalog.value.selected, p.core.panel) then PresentCatalog
    else if p.core.catalog.value.mode == Overlaid && p.core.background == [] then PresentBackground
    else if !Composed(p).result.Composited? then PresentAlpha
    else PresentAccepted
  }

  /** What stops a presentation before the adapter is asked. */
  function Prepared(p: Pipe, epoch: int): (r: PresentResult)
    ensures r.PresentAccepted? ==> ReadyImage(p)
  {
    if !BeforeLatch(p, epoch).PresentAccepted? then BeforeLatch(p, epoch) else ToPresent(ArmOutcome(p.latch, epoch))
  }

  function SleepFrame(p: Pipe, epoch: int): Frame
    requires ReadyImage(p)
  {
    var out, panel := Composed(p), p.core.panel;
    Frame(p.core.nextSequence, epoch, None, Some(out.panelGray), if out.rgba == [] then None else Some(out.rgba),
          Rect(0, 0, panel.width, panel.height), panel.engineMode, panel.policyFlag, false, NoRefresh, 0)
  }

  function PresentOf(p: Pipe, epoch: int): PresentResult {
    if !Prepared(p, epoch).PresentAccepted? then Prepared(p, epoch)
    else if Accepts(p.adapter, SleepFrame(p, epoch)) then PresentAccepted
    else PresentEnqueue
  }

  /** The frame of a claimed epoch goes to the adapter; the cycle ends at once when the adapter refuses it. */
  function Queued(p: Pipe, epoch: int, frame: Frame): Pipe {
    Pipe(p.core.(generation := p.core.generation + 1, captured := false, nextSequence := p.core.nextSequence + 1),
         if Accepts(p.adapter, frame) then Latch(Consumed, epoch, epoch) else Latch(Inactive, epoch, 0),
         Enqueued(p.adapter, frame),
         p.history.(armed := p.history.armed + [epoch], used := p.history.used + [Use(epoch, true)]))
  }

  function Presented(p: Pipe, epoch: int): Pipe {
    if Prepared(p, epoch).PresentAccepted? then Queued(p, epoch, SleepFrame(p, epoch)) else p
  }

  function CycleDisarmed(p: Pipe, epoch: int): Pipe {
    if !DisarmOutcome(p.latch, epoch).DisarmAccepted? then p
    else
      Pipe(WithoutPage(p.core), DisarmedBy(p.latch, epoch), SleepCancelled(p.adapter, epoch),
           p.history.(released := p.history.observed))
  }

  predicate TakesCapture(p: Pipe) {
    Running(p.core) && p.core.enabled && p.latch.state != Consumed
  }

  function CaptureOffered(p: Pipe): Pipe {
    if TakesCapture(p) then p.(core := p.core.(captured := true)) else p
  }

  predicate GrantsRefresh(p: Pipe, refresh: Refresh) {
    && p.core.panel.color && Running(p.core) && p.core.enabled && p.latch.active == 0
    && !p.core.refreshBusy && refresh != NoRefresh
  }

  function RefreshRequested(p: Pipe, refresh: Refresh): Pipe {
    if !GrantsRefresh(p, refresh) then p
    else
      var id := p.core.refreshRequested + 1;
      p.(core := p.core.(refreshBusy := true, refreshId := id, refreshRequested := id, refreshMode := refresh))
  }

  function RefreshCancelled(p: Pipe, id: int): Pipe {
    if id != 0 && p.core.refreshId == id then p.(core := Cleared(p.core)) else p
  }

  // ---------- the conversion worker's sections ----------

  function Working(p: Pipe, w: Worker): Pipe { p.(core := p.core.(worker := w)) }

  function Taken(p: Pipe): Pipe {
    if p.core.stopping || !p.core.captured then p
    else
      p.(core := p.core.(captured := false, worker := Converting(p.core.nextSequence, p.core.generation),
                         nextSequence := p.core.nextSequence + 1))
  }

  function ConversionReturned(p: Pipe, result: Option<Gray>): Pipe
    requires p.core.worker.Converting?
  {
    match result
    case Some(g) => Working(p, Converted(p.core.worker.sequence, p.core.worker.generation, g))
    case None => p.(core := (if p.core.refreshId != 0 then Cleared(p.core) else p.core).(worker := Idle))
  }

  function GenerationChecked(p: Pipe): Pipe
    requires p.core.worker.Converted?
  {
    var w := p.core.worker;
    Working(p, if w.generation != p.core.generation then Idle else Checked(w.sequence, w.gray))
  }

  /** The catalog's image when it has this size; an empty candidate otherwise. */
  function Chosen(catalog: Option<Catalog>, width: int, height: int): Option<Candidate> {
    if catalog.None? then None
    else
      var c := catalog.value.selected;
      Some(if c.width != width || c.height != height then Candidate(None, None, None, 0, 0) else c)
  }

  /** The section's effect for a decision, the latch it leaves and the frame that goes on. */
  function AfterJudging(p: Pipe, d: Decision, latch: Latch, shown: Gray): Pipe
    requires p.core.worker.Checked?
  {
    var w := if d == Suppress then Idle else Decided(p.core.worker.sequence, shown, d, p.latch.active);
    var used := p.history.used;
    Working(p, w).(latch := latch,
                   history := p.history.(used := if d == Replace then used + [Use(p.latch.active, false)] else used))
  }

  function FrameJudged(p: Pipe): Pipe
    requires p.core.worker.Checked?
  {
    var g := p.core.worker.gray;
    var c := Chosen(p.core.catalog, g.width, g.height);
    AfterJudging(p, Judged(p.latch, g, c), LatchAfter(p.latch, g, c), Shown(p.latch, g, c))
  }

  function RefreshSelected(p: Pipe, same: bool): Pipe
    requires p.core.worker.Decided?
  {
    var w := p.core.worker;
    var open := p.core.enabled && p.latch.active == 0;
    var id := if open then p.core.refreshId else 0;
    var mode := if open then p.core.refreshMode else NoRefresh;
    Working(p, if same && w.decision != Replace && id == 0 then Idle
               else Selected(w.sequence, w.gray, w.decision, w.epoch, id, mode))
  }

  /** The request captured earlier still stands when the frame is handed over. */
  predicate RefreshStands(p: Pipe)
    requires p.core.worker.Selected?
  {
    p.core.worker.refreshId != 0 && p.core.refreshId == p.core.worker.refreshId && p.core.enabled && p.latch.active == 0
  }

  function DeliveredFrame(p: Pipe): Frame
    requires p.core.worker.Selected?
  {
    var w, panel := p.core.worker, p.core.panel;
    var dropped := w.refreshId != 0 && !RefreshStands(p);
    Frame(w.sequence, if w.decision == Replace then w.epoch else 0, if panel.color then Some(w.sequence) else None,
          Some(w.gray.pixels), None, Rect(0, 0, w.gray.width, w.gray.height), panel.engineMode, panel.policyFlag, false,
          if dropped then NoRefresh else w.refreshMode, if dropped then 0 else w.refreshId)
  }

  function FrameDelivered(p: Pipe): Pipe
    requires p.core.worker.Selected?
  {
    var frame := DeliveredFrame(p);
    var stands := RefreshStands(p);
    p.(core := p.core.(
         worker := Idle,
         refreshId := if stands then 0 else p.core.refreshId,
         refreshMode := if stands then NoRefresh else p.core.refreshMode,
         refreshBusy := p.core.refreshBusy && (Accepts(p.adapter, frame) || !stands)),
       adapter := Enqueued(p.adapter, frame))
  }

  // ---------- the submission callback ----------

  /** The frame's gray bytes may serve as the page under an overlay. */
  predicate Retainable(panel: Panel, s: Submission) {
    var f := s.flight.frame;
    && s.accepted && f.sleepEpoch == 0 && f.sequence != 0
    && f.dirty == Rect(0, 0, panel.width, panel.height)
    && panel.width > 0 && panel.height > 0
    && f.grayscale.Some? && |f.grayscale.value| == PanelBytes(panel) && Overlay.PanelGray(f.grayscale.value)
  }

  function WithPage(c: Core, s: Submission): Core {
    if Retainable(c.panel, s) && s.flight.frame.sequence > c.backgroundSequence
      then c.(background := s.flight.frame.grayscale.value, backgroundSequence := s.flight.frame.sequence)
    else c
  }

  /** A request is not busy any more once its own submission is observed. */
  function Answered(c: Core, request: int): Core {
    c.(refreshBusy := c.refreshBusy && (request == 0 || request != c.refreshRequested))
  }

  function Observed(p: Pipe): Pipe
    requires p.history.observed < |p.adapter.log.submissions|
  {
    var s := p.adapter.log.submissions[p.history.observed];
    p.(core := Answered(WithPage(p.core, s), s.flight.frame.request),
       history := p.history.(observed := p.history.observed + 1))
  }

  // ---------- runs ----------

  predicate WorkEnabled(p: Pipe, w: Work) {
    match w
    case Take => p.core.worker.Idle? && p.core.started
    case Convert(_) => p.core.worker.Converting?
    case Check => p.core.worker.Converted?
    case Judge => p.core.worker.Checked?
    case Select(_) => p.core.worker.Decided?
    case Deliver => p.core.worker.Selected?
  }

  predicate PipeEnabled(p: Pipe, e: PipeEvent) {
    match e
    case Caller(_) => true
    case Conversion(w) => WorkEnabled(p, w)
    case Adapter(a) => Enabled(p.adapter, a) && AdapterMoves(p, a)
    case Observe => p.history.observed < |p.adapter.log.submissions|
  }

  /** The adapter starts and stops under the pipeline, and its worker runs the callback before it polls again. */
  predicate AdapterMoves(p: Pipe, a: Event) {
    match a
    case Start => p.core.started
    case Stop => p.core.stopping && p.core.worker.Idle?
    case Poll(_, _) => p.history.observed == |p.adapter.log.submissions|
    case Return(_, _, _) => true
    case _ => false
  }

  function Called(p: Pipe, c: Control): Pipe {
    match c
    case StartPipe => PipeStarted(p)
    case StopPipe => PipeStopped(p)
    case SetEnabled(on) => EnabledAs(p, on)
    case ResetSource => SourceReset(p)
    case Publish(epoch, selected, mode, valid) => Published(p, epoch, selected, mode, valid)
    case Arm(epoch) => CycleArmed(p, epoch)
    case Present(epoch) => Presented(p, epoch)
    case Disarm(epoch) => CycleDisarmed(p, epoch)
    case Capture => CaptureOffered(p)
    case RequestRefresh(refresh) => RefreshRequested(p, refresh)
    case CancelRefresh(id) => RefreshCancelled(p, id)
  }

  function Worked(p: Pipe, w: Work): Pipe
    requires WorkEnabled(p, w)
  {
    match w
    case Take => Taken(p)
    case Convert(result) => ConversionReturned(p, result)
    case Check => GenerationChecked(p)
    case Judge => FrameJudged(p)
    case Select(same) => RefreshSelected(p, same)
    case Deliver => FrameDelivered(p)
  }

  function PipeStep(p: Pipe, e: PipeEvent): Pipe
    requires PipeEnabled(p, e)
  {
    match e
    case Caller(c) => Called(p, c)
    case Conversion(w) => Worked(p, w)
    case Adapter(a) => p.(adapter := Step(p.adapter, a))
    case Observe => Observed(p)
  }

  predicate CanRunPipe(p: Pipe, events: seq<PipeEvent>)
    decreases |events|
  {
    events == [] || (PipeEnabled(p, events[0]) && CanRunPipe(PipeStep(p, events[0]), events[1..]))
  }

  function RunPipe(p: Pipe, events: seq<PipeEvent>): Pipe
    requires CanRunPipe(p, events)
    decreases |events|
  {
    if events == [] then p else RunPipe(PipeStep(p, events[0]), events[1..])
  }

  // ---------- what the adapter does to its pending frame ----------

  function PendingEpoch(s: State): int { if s.pending.Some? then s.pending.value.sleepEpoch else 0 }
  function PendingRequest(s: State): int { if s.pending.Some? then s.pending.value.request else 0 }

  lemma EnqueuedFacts(s: State, f: Frame)
    ensures var t := Enqueued(s, f);
            && PendingEpoch(t) == (if Accepts(s, f) then f.sleepEpoch else PendingEpoch(s))
            && (PendingRequest(t) == f.request || PendingRequest(t) == PendingRequest(s))
            && (Accepts(s, f) && f.sleepEpoch != 0 ==> PendingRequest(t) == f.request)
            && t.log.accepted == (if Accepts(s, f) then s.log.accepted + [f] else s.log.accepted)
            && t.log.submissions == s.log.submissions
  {
  }

  lemma CancelledFacts(s: State, epoch: int)
    ensures var t := SleepCancelled(s, epoch);
            && (PendingEpoch(t) == 0 || PendingEpoch(t) == PendingEpoch(s)) && (epoch != 0 ==> PendingEpoch(t) != epoch)
            && (PendingRequest(t) == 0 || PendingRequest(t) == PendingRequest(s))
            && t.log.accepted == s.log.accepted && t.log.submissions == s.log.submissions
    ensures var t := DiagnosticCancelled(s);
            && PendingEpoch(t) == PendingEpoch(s) && PendingRequest(t) == 0
            && t.log.accepted == s.log.accepted && t.log.submissions == s.log.submissions
  {
  }

  lemma {:induction false} StepFacts(s: State, e: Event)
    requires Enabled(s, e) && (e.Start? || e.Stop? || e.Poll? || e.Return?)
    ensures var t := Step(s, e);
            && (PendingEpoch(t) == 0 || PendingEpoch(t) == PendingEpoch(s))
            && (PendingRequest(t) == 0 || PendingRequest(t) == PendingRequest(s))
            && t.log.accepted == s.log.accepted && s.log.submissions <= t.log.submissions
  {
  }

  // ---------- epochs ----------

  ghost predicate Rising(epochs: seq<int>) {
    forall i, j :: 0 <= i < j < |epochs| ==> epochs[i] < epochs[j]
  }

  ghost predicate RisingUses(used: seq<Use>) {
    forall i, j :: 0 <= i < j < |used| ==> used[i].epoch < used[j].epoch
  }

  predicate LatchCoherent(l: Latch) {
    (l.state == Inactive <==> l.active == 0) && l.lastArmed >= 0 && (l.active != 0 ==> l.active == l.lastArmed)
  }

  /** Accepted epochs strictly rise, each is used at most once and only while it is the active one. */
  ghost predicate Epochs(l: Latch, armed: seq<int>, used: seq<Use>) {
    && LatchCoherent(l) && Rising(armed) && RisingUses(used)
    && l.lastArmed == (if armed == [] then 0 else armed[|armed| - 1])
    && (forall i :: 0 <= i < |armed| ==> armed[i] > 0)
    && (forall i :: 0 <= i < |used| ==> used[i].epoch in armed)
    && (forall i :: 0 <= i < |used| ==> used[i].epoch <= l.lastArmed)
    && (l.state == Armed ==> forall i :: 0 <= i < |used| ==> used[i].epoch < l.active)
    && (l.state == Consumed ==> used != [] && used[|used| - 1].epoch == l.active)
  }

  lemma ArmKeepsEpochs(l: Latch, armed: seq<int>, used: seq<Use>, epoch: int)
    requires Epochs(l, armed, used) && ArmOutcome(l, epoch).ArmAccepted?
    ensures Epochs(ArmedBy(l, epoch), armed + [epoch], used)
    ensures Epochs(Latch(Consumed, epoch, epoch), armed + [epoch], used + [Use(epoch, true)])
    ensures Epochs(Latch(Inactive, epoch, 0), armed + [epoch], used + [Use(epoch, true)])
  {
  }

  lemma JudgeKeepsEpochs(l: Latch, armed: seq<int>, used: seq<Use>, g: Gray, c: Option<Candidate>)
    requires Epochs(l, armed, used)
    ensures Epochs(LatchAfter(l, g, c), armed,
                   if Judged(l, g, c) == Replace then used + [Use(l.active, false)] else used)
  {
    hide Fits, Dark, FullFrame;
  }

  lemma DisarmKeepsEpochs(l: Latch, armed: seq<int>, used: seq<Use>, epoch: int)
    requires Epochs(l, armed, used)
    ensures Epochs(DisarmedBy(l, epoch), armed, used)
  {
  }

  lemma CallKeepsEpochs(p: Pipe, c: Control)
    requires Epochs(p.latch, p.history.armed, p.history.used)
    ensures var q := Called(p, c); Epochs(q.latch, q.history.armed, q.history.used)
  {
    hide Epochs, Accepts, Enqueued, SleepCancelled, DiagnosticCancelled, Composed, ValidCandidate;
    match c
    case Arm(epoch) =>
      if ArmOf(p, epoch).ArmAccepted? { ArmKeepsEpochs(p.latch, p.history.armed, p.history.used, epoch); }
    case Present(epoch) =>
      if Prepared(p, epoch).PresentAccepted? { ArmKeepsEpochs(p.latch, p.history.armed, p.history.used, epoch); }
    case Disarm(epoch) => DisarmKeepsEpochs(p.latch, p.history.armed, p.history.used, epoch);
    case _ =>
  }

  lemma WorkKeepsEpochs(p: Pipe, w: Work)
    requires Epochs(p.latch, p.history.armed, p.history.used) && WorkEnabled(p, w)
    ensures var q := Worked(p, w); Epochs(q.latch, q.history.armed, q.history.used)
  {
    hide Epochs, Accepts, Enqueued, Judged, LatchAfter, Shown;
    if w.Judge? {
      var g := p.core.worker.gray;
      JudgeKeepsEpochs(p.latch, p.history.armed, p.history.used, g, Chosen(p.core.catalog, g.width, g.height));
    }
  }

  // ---------- sleep frames in the adapter ----------

  predicate UsedBy(used: seq<Use>, epoch: int) { Use(epoch, true) in used || Use(epoch, false) in used }

  /** The epoch of the replacement image the worker still carries. */
  function Carried(w: Worker): int {
    match w
    case Decided(_, _, Replace, epoch) => epoch
    case Selected(_, _, Replace, epoch, _, _) => epoch
    case _ => 0
  }

  ghost predicate Absent(accepted: seq<Frame>, epoch: int) {
    epoch != 0 ==> forall i :: 0 <= i < |accepted| ==> accepted[i].sleepEpoch != epoch
  }

  /** No two accepted frames share a sleep epoch, and every one belongs to a used epoch. */
  ghost predicate OncePerEpoch(accepted: seq<Frame>, used: seq<Use>) {
    && (forall i, j :: 0 <= i < j < |accepted| && accepted[i].sleepEpoch != 0 ==>
      accepted[i].sleepEpoch != accepted[j].sleepEpoch)
    && (forall i :: 0 <= i < |accepted| && accepted[i].sleepEpoch != 0 ==> UsedBy(used, accepted[i].sleepEpoch))
  }

  /** A pending direct frame belongs to the active cycle; a carried one to a replacement not yet delivered. */
  ghost predicate Owned(pending: int, active: int, w: Worker, accepted: seq<Frame>, used: seq<Use>) {
    && (pending != 0 ==> UsedBy(used, pending) && (Use(pending, true) in used ==> pending == active))
    && (Carried(w) != 0 ==> Use(Carried(w), false) in used && Absent(accepted, Carried(w)) && FullFrame(w.gray))
  }

  ghost predicate Frames(p: Pipe) {
    && Epochs(p.latch, p.history.armed, p.history.used)
    && OncePerEpoch(p.adapter.log.accepted, p.history.used)
    && Owned(PendingEpoch(p.adapter), p.latch.active, p.core.worker, p.adapter.log.accepted, p.history.used)
  }

  /** An epoch that was never used is in no accepted frame. */
  lemma FreshEpoch(accepted: seq<Frame>, l: Latch, armed: seq<int>, used: seq<Use>, epoch: int)
    requires Epochs(l, armed, used) && OncePerEpoch(accepted, used) && epoch != 0
    requires epoch > l.lastArmed || (l.state == Armed && epoch == l.active)
    ensures Absent(accepted, epoch) && !UsedBy(used, epoch)
  {
  }

  /** One epoch has one kind of use. */
  lemma OneUse(l: Latch, armed: seq<int>, used: seq<Use>, epoch: int)
    requires Epochs(l, armed, used)
    ensures !(Use(epoch, true) in used && Use(epoch, false) in used)
  {
  }

  lemma MoreUses(accepted: seq<Frame>, used: seq<Use>, f: Frame, u: Use)
    requires OncePerEpoch(accepted, used)
    ensures f.sleepEpoch == 0 || (Absent(accepted, f.sleepEpoch) && UsedBy(used, f.sleepEpoch))
      ==> OncePerEpoch(accepted + [f], used)
    ensures f.sleepEpoch == u.epoch && Absent(accepted, f.sleepEpoch) ==> OncePerEpoch(accepted + [f], used + [u])
  {
  }

  lemma UseKeepsFrames(accepted: seq<Frame>, used: seq<Use>, u: Use)
    requires OncePerEpoch(accepted, used)
    ensures OncePerEpoch(accepted, used + [u])
  {
  }

  /** A frame of a newly armed epoch, accepted or refused. */
  lemma NewEpochOwned(accepted: seq<Frame>, pending: int, l: Latch, armed: seq<int>, used: seq<Use>, w: Worker,
      f: Frame, ok: bool)
    requires Epochs(l, armed, used) && OncePerEpoch(accepted, used) && Owned(pending, l.active, w, accepted, used)
    requires ArmOutcome(l, f.sleepEpoch).ArmAccepted?
    ensures var more := used + [Use(f.sleepEpoch, true)];
            var now := if ok then accepted + [f] else accepted;
            && OncePerEpoch(now, more)
            && Owned(if ok then f.sleepEpoch else pending, if ok then f.sleepEpoch else 0, w, now, more)
  {
    FreshEpoch(accepted, l, armed, used, f.sleepEpoch);
    MoreUses(accepted, used, f, Use(f.sleepEpoch, true));
    UseKeepsFrames(accepted, used, Use(f.sleepEpoch, true));
    hide Epochs, OncePerEpoch, FullFrame;
  }

  lemma SleepFrameFacts(p: Pipe, epoch: int)
    requires Prepared(p, epoch).PresentAccepted?
    ensures p.core.catalog.Some? && ValidCandidate(p.core.catalog.value.selected, p.core.panel)
    ensures SleepFrame(p, epoch).sleepEpoch == epoch && SleepFrame(p, epoch).request == 0
    ensures ArmOutcome(p.latch, epoch).ArmAccepted?
  {
    hide Composed, ValidCandidate;
  }

  lemma PresentKeepsFrames(p: Pipe, epoch: int)
    requires Frames(p) && Prepared(p, epoch).PresentAccepted?
    ensures Frames(Presented(p, epoch))
  {
    SleepFrameFacts(p, epoch);
    var f := SleepFrame(p, epoch);
    ArmKeepsEpochs(p.latch, p.history.armed, p.history.used, epoch);
    EnqueuedFacts(p.adapter, f);
    NewEpochOwned(p.adapter.log.accepted, PendingEpoch(p.adapter), p.latch, p.history.armed, p.history.used,
      p.core.worker, f, Accepts(p.adapter, f));
    hide Epochs, OncePerEpoch, Owned, SleepFrame, ValidCandidate, Accepts, Enqueued, Prepared, PendingEpoch, ArmOutcome;
  }

  /** The pipeline's history is the same, its pending frame too or gone, and the worker carries nothing new. */
  predicate NothingNew(p: Pipe, q: Pipe) {
    && q.latch.active == p.latch.active && q.history.used == p.history.used
    && q.adapter.log.accepted == p.adapter.log.accepted
    && (PendingEpoch(q.adapter) == PendingEpoch(p.adapter) || PendingEpoch(q.adapter) == 0)
    && (|| Carried(q.core.worker) == 0
        || (Carried(q.core.worker) == Carried(p.core.worker) && q.core.worker.gray == p.core.worker.gray))
  }

  lemma NothingNewKeepsFrames(p: Pipe, q: Pipe)
    requires Frames(p) && NothingNew(p, q) && Epochs(q.latch, q.history.armed, q.history.used)
    ensures Frames(q)
  {
    hide Epochs, OncePerEpoch, Absent, FullFrame;
  }

  /** The latch's own image replaces the frame once: its epoch is fresh. */
  lemma ReplacementOwned(accepted: seq<Frame>, pending: int, l: Latch, armed: seq<int>, used: seq<Use>, v: Worker,
      w: Worker)
    requires Epochs(l, armed, used) && OncePerEpoch(accepted, used) && Owned(pending, l.active, v, accepted, used)
    requires l.state == Armed && Carried(w) == l.active && FullFrame(w.gray)
    ensures var more := used + [Use(l.active, false)];
            OncePerEpoch(accepted, more) && Owned(pending, l.active, w, accepted, more)
  {
    FreshEpoch(accepted, l, armed, used, l.active);
    UseKeepsFrames(accepted, used, Use(l.active, false));
    hide Epochs, OncePerEpoch, FullFrame, Absent;
  }

  lemma JudgementFacts(l: Latch, g: Gray, c: Option<Candidate>)
    ensures LatchAfter(l, g, c).active == l.active
    ensures Judged(l, g, c) == Replace ==> l.state == Armed && FullFrame(Shown(l, g, c))
  {
    hide Dark;
  }

  lemma AnyJudgementKeepsFrames(p: Pipe, d: Decision, latch: Latch, shown: Gray)
    requires Frames(p) && p.core.worker.Checked? && latch.active == p.latch.active
    requires var used := p.history.used;
             Epochs(latch, p.history.armed, if d == Replace then used + [Use(p.latch.active, false)] else used)
    requires d == Replace ==> p.latch.state == Armed && FullFrame(shown)
    ensures Frames(AfterJudging(p, d, latch, shown))
  {
    var q := AfterJudging(p, d, latch, shown);
    hide Epochs, OncePerEpoch, FullFrame, PendingEpoch, Absent;
    if d == Replace {
      hide Owned;
      ReplacementOwned(p.adapter.log.accepted, PendingEpoch(p.adapter), p.latch, p.history.armed, p.history.used,
        p.core.worker, q.core.worker);
    } else {
      hide Owned;
      NothingNewKeepsFrames(p, q);
    }
  }

  lemma JudgeKeepsFrames(p: Pipe)
    requires Frames(p) && p.core.worker.Checked?
    ensures Frames(FrameJudged(p))
  {
    var g := p.core.worker.gray;
    var c := Chosen(p.core.catalog, g.width, g.height);
    JudgementFacts(p.latch, g, c);
    JudgeKeepsEpochs(p.latch, p.history.armed, p.history.used, g, c);
    hide Epochs, OncePerEpoch, Owned, FullFrame, Chosen, Judged, LatchAfter, Shown, AfterJudging;
    AnyJudgementKeepsFrames(p, Judged(p.latch, g, c), LatchAfter(p.latch, g, c), Shown(p.latch, g, c));
  }

  lemma DeliverKeepsFrames(p: Pipe)
    requires Frames(p) && p.core.worker.Selected?
    ensures Frames(FrameDelivered(p))
  {
    var f := DeliveredFrame(p);
    assert f.sleepEpoch == Carried(p.core.worker);
    MoreUses(p.adapter.log.accepted, p.history.used, f, Use(0, true));
    EnqueuedFacts(p.adapter, f);
    OneUse(p.latch, p.history.armed, p.history.used, f.sleepEpoch);
    hide Epochs, OncePerEpoch, DeliveredFrame, Accepts, Enqueued, FullFrame, RefreshStands;
  }

  lemma CallIsNotNew(p: Pipe, c: Control)
    requires !c.Present? && !c.Arm? && !c.Disarm?
    ensures NothingNew(p, Called(p, c))
  {
    CancelledFacts(p.adapter, 0);
    hide DiagnosticCancelled, PendingEpoch;
  }

  /** Arming needs an idle latch, so no pending frame belongs to an active cycle. */
  lemma ArmKeepsFrames(p: Pipe, epoch: int)
    requires Frames(p)
    ensures Frames(CycleArmed(p, epoch))
  {
    CallKeepsEpochs(p, Arm(epoch));
    CancelledFacts(p.adapter, 0);
    hide Epochs, OncePerEpoch, Absent, DiagnosticCancelled, PendingEpoch, FullFrame;
  }

  lemma DisarmKeepsFrames(p: Pipe, epoch: int)
    requires Frames(p)
    ensures Frames(CycleDisarmed(p, epoch))
  {
    CallKeepsEpochs(p, Disarm(epoch));
    CancelledFacts(p.adapter, epoch);
    hide Epochs, OncePerEpoch, Absent, SleepCancelled, PendingEpoch, FullFrame;
  }

  lemma CallKeepsFrames(p: Pipe, c: Control)
    requires Frames(p)
    ensures Frames(Called(p, c))
  {
    hide Epochs, OncePerEpoch, Owned, NothingNew, CycleArmed, CycleDisarmed, Queued, Prepared;
    match c
    case Present(epoch) => if Prepared(p, epoch).PresentAccepted? { PresentKeepsFrames(p, epoch); }
    case Arm(epoch) => ArmKeepsFrames(p, epoch);
    case Disarm(epoch) => DisarmKeepsFrames(p, epoch);
    case _ => CallIsNotNew(p, c); CallKeepsEpochs(p, c); NothingNewKeepsFrames(p, Called(p, c));
  }

  lemma WorkIsNotNew(p: Pipe, w: Work)
    requires WorkEnabled(p, w) && !w.Judge? && !w.Deliver?
    ensures NothingNew(p, Worked(p, w))
  {
    hide NothingNew, Inside, Taken, ConversionReturned, GenerationChecked, RefreshSelected, FrameJudged, FrameDelivered;
    match w
    case Take => TakeStaysInside(p);
    case Convert(result) => ConvertStaysInside(p, result);
    case Check => CheckStaysInside(p);
    case Select(same) => SelectStaysInside(p, same);
    case _ =>
  }

  lemma WorkKeepsFrames(p: Pipe, w: Work)
    requires Frames(p) && WorkEnabled(p, w)
    ensures Frames(Worked(p, w))
  {
    hide Epochs, OncePerEpoch, Owned, NothingNew, FrameJudged, FrameDelivered;
    match w
    case Judge => JudgeKeepsFrames(p);
    case Deliver => DeliverKeepsFrames(p);
    case _ => WorkIsNotNew(p, w); WorkKeepsEpochs(p, w); NothingNewKeepsFrames(p, Worked(p, w));
  }

  lemma {:induction false} StepKeepsFrames(p: Pipe, e: PipeEvent)
    requires Frames(p) && PipeEnabled(p, e)
    ensures Frames(PipeStep(p, e))
  {
    hide Epochs, OncePerEpoch, Owned, Called, Worked, Step;
    match e
    case Caller(c) => CallKeepsFrames(p, c);
    case Conversion(w) => WorkKeepsFrames(p, w);
    case Adapter(a) => StepFacts(p.adapter, a); NothingNewKeepsFrames(p, PipeStep(p, e));
    case Observe => NothingNewKeepsFrames(p, Observed(p));
  }

  predicate IsFreshPipe(p: Pipe) {
    && !p.core.started && !p.core.stopping && !p.core.enabled && !p.core.captured && p.latch == Latch(Inactive, 0, 0)
    && p.core.worker == Idle && p.core.background == [] && p.core.backgroundSequence == 0
    && IsFresh(p.adapter) && p.history == History(0, 0, [], [])
  }

  /** Over whole runs: accepted epochs strictly rise, each is used at most once, the latch is Inactive exactly
      when no epoch is active, and no two frames ever accepted by the adapter share a sleep epoch. */
  lemma {:induction false} RunKeepsFrames(p: Pipe, events: seq<PipeEvent>)
    requires IsFreshPipe(p) || Frames(p)
    requires CanRunPipe(p, events)
    ensures Frames(RunPipe(p, events))
    decreases |events|
  {
    hide PipeStep;
    if events != [] {
      assert Frames(p);
      hide Frames, IsFreshPipe, PipeEnabled;
      StepKeepsFrames(p, events[0]);
      RunKeepsFrames(PipeStep(p, events[0]), events[1..]);
    }
  }

  // ---------- disarming withdraws ----------

  /** Nothing of the epoch is pending, and nothing of it can come. */
  ghost predicate Withdrawn(p: Pipe, epoch: int) {
    && 0 < epoch <= p.latch.lastArmed && p.latch.active != epoch
    && PendingEpoch(p.adapter) != epoch && Carried(p.core.worker) != epoch
  }

  lemma CallKeepsWithdrawn(p: Pipe, c: Control, epoch: int)
    requires Withdrawn(p, epoch)
    ensures Withdrawn(Called(p, c), epoch)
  {
    match c
    case Present(e) =>
      if Prepared(p, e).PresentAccepted? {
        EnqueuedFacts(p.adapter, SleepFrame(p, e));
        assert SleepFrame(p, e).sleepEpoch == e;
        hide SleepFrame, Composed, ValidCandidate, Accepts, Enqueued;
      }
    case Arm(e) => CancelledFacts(p.adapter, 0); hide DiagnosticCancelled;
    case Disarm(e) => CancelledFacts(p.adapter, e); hide SleepCancelled;
    case SetEnabled(on) => CancelledFacts(p.adapter, 0); hide DiagnosticCancelled;
    case _ =>
  }

  lemma WorkKeepsWithdrawn(p: Pipe, w: Work, epoch: int)
    requires Withdrawn(p, epoch) && WorkEnabled(p, w)
    ensures Withdrawn(Worked(p, w), epoch)
  {
    hide FullFrame, Dark, Fits, Enqueued, Accepts;
    if w.Deliver? {
      EnqueuedFacts(p.adapter, DeliveredFrame(p));
      assert DeliveredFrame(p).sleepEpoch == Carried(p.core.worker);
      hide DeliveredFrame, RefreshStands;
    }
  }

  lemma {:induction false} StepKeepsWithdrawn(p: Pipe, e: PipeEvent, epoch: int)
    requires Withdrawn(p, epoch) && PipeEnabled(p, e)
    ensures Withdrawn(PipeStep(p, e), epoch)
  {
    hide Called, Worked, Step, PendingEpoch;
    match e
    case Caller(c) => CallKeepsWithdrawn(p, c, epoch);
    case Conversion(w) => WorkKeepsWithdrawn(p, w, epoch);
    case Adapter(a) => StepFacts(p.adapter, a);
    case Observe =>
  }

  lemma {:induction false} StaysWithdrawn(p: Pipe, events: seq<PipeEvent>, epoch: int)
    requires Withdrawn(p, epoch) && CanRunPipe(p, events)
    ensures Withdrawn(RunPipe(p, events), epoch)
    decreases |events|
  {
    hide Withdrawn, PipeStep, PipeEnabled;
    if events != [] {
      StepKeepsWithdrawn(p, events[0], epoch);
      StaysWithdrawn(PipeStep(p, events[0]), events[1..], epoch);
    }
  }

  /** After its disarm is accepted, a directly presented epoch never again has a pending frame, in any run. */
  lemma {:induction false} DisarmWithdraws(p: Pipe, epoch: int, events: seq<PipeEvent>)
    requires Frames(p) && DisarmOutcome(p.latch, epoch).DisarmAccepted? && Use(epoch, true) in p.history.used
    requires CanRunPipe(CycleDisarmed(p, epoch), events)
    ensures PendingEpoch(RunPipe(CycleDisarmed(p, epoch), events).adapter) != epoch
  {
    OneUse(p.latch, p.history.armed, p.history.used, epoch);
    DisarmLeavesNothing(p, epoch);
    hide *;
    StaysWithdrawn(CycleDisarmed(p, epoch), events, epoch);
  }

  lemma DisarmLeavesNothing(p: Pipe, epoch: int)
    requires Frames(p) && DisarmOutcome(p.latch, epoch).DisarmAccepted?
    ensures Withdrawn(CycleDisarmed(p, epoch), epoch) <==> Carried(p.core.worker) != epoch
  {
    CancelledFacts(p.adapter, epoch);
    hide SleepCancelled, OncePerEpoch, Owned;
  }

  function Handover(w: Worker): seq<PipeEvent> {
    if w.Decided? then [Conversion(Select(true)), Conversion(Deliver)] else [Conversion(Deliver)]
  }

  lemma DeliverArrives(p: Pipe, epoch: int)
    requires p.core.worker.Selected? && epoch != 0 && Carried(p.core.worker) == epoch && FullFrame(p.core.worker.gray)
    requires p.adapter.started && !p.adapter.stopping
    ensures PendingEpoch(FrameDelivered(p).adapter) == epoch
  {
    var f := DeliveredFrame(p);
    assert f.sleepEpoch == epoch && Accepts(p.adapter, f);
    EnqueuedFacts(p.adapter, f);
    hide DeliveredFrame, Enqueued, Accepts, PendingEpoch, RefreshStands;
  }

  lemma SelectCarries(p: Pipe)
    requires p.core.worker.Decided? && Carried(p.core.worker) != 0
    ensures var q := RefreshSelected(p, true);
            && q.core.worker.Selected? && Carried(q.core.worker) == Carried(p.core.worker)
            && q.core.worker.gray == p.core.worker.gray && q.adapter == p.adapter
  {
  }

  lemma RunOne(p: Pipe, e: PipeEvent)
    requires PipeEnabled(p, e)
    ensures CanRunPipe(p, [e]) && RunPipe(p, [e]) == PipeStep(p, e)
  {
    hide PipeStep, PipeEnabled;
    assert [e][1..] == [];
  }

  lemma RunTwo(p: Pipe, d: PipeEvent, e: PipeEvent)
    requires PipeEnabled(p, d) && PipeEnabled(PipeStep(p, d), e)
    ensures CanRunPipe(p, [d, e]) && RunPipe(p, [d, e]) == PipeStep(PipeStep(p, d), e)
  {
    hide PipeStep, PipeEnabled;
    RunOne(PipeStep(p, d), e);
    assert [d, e][1..] == [e];
  }

  /** The worker hands over a replacement it carries whatever happened to the cycle meanwhile. */
  lemma HandoverArrives(p: Pipe, epoch: int)
    requires epoch != 0 && Carried(p.core.worker) == epoch && FullFrame(p.core.worker.gray)
    requires p.adapter.started && !p.adapter.stopping
    ensures CanRunPipe(p, Handover(p.core.worker)) && PendingEpoch(RunPipe(p, Handover(p.core.worker)).adapter) == epoch
  {
    if p.core.worker.Decided? {
      SelectCarries(p);
      DeliverArrives(RefreshSelected(p, true), epoch);
      hide RefreshSelected, FrameDelivered, FullFrame, CanRunPipe, RunPipe;
      RunTwo(p, Conversion(Select(true)), Conversion(Deliver));
    } else {
      DeliverArrives(p, epoch);
      hide FrameDelivered, FullFrame, CanRunPipe, RunPipe;
      RunOne(p, Conversion(Deliver));
    }
  }

  /** While the adapter accepts frames, a disarmed epoch can never be pending again if and only if the
      worker was not carrying its replacement image at the disarm. */
  lemma {:induction false} DisarmWithdrawsExactly(p: Pipe, epoch: int)
    requires Frames(p) && DisarmOutcome(p.latch, epoch).DisarmAccepted? && p.adapter.started && !p.adapter.stopping
    ensures var q := CycleDisarmed(p, epoch);
            Carried(p.core.worker) != epoch <==>
            forall events :: CanRunPipe(q, events) ==> PendingEpoch(RunPipe(q, events).adapter) != epoch
  {
    var q := CycleDisarmed(p, epoch);
    DisarmLeavesNothing(p, epoch);
    if Carried(p.core.worker) != epoch {
      hide *;
      forall events | CanRunPipe(q, events) ensures PendingEpoch(RunPipe(q, events).adapter) != epoch {
        StaysWithdrawn(q, events, epoch);
        WithdrawnIsNotPending(RunPipe(q, events), epoch);
      }
    } else {
      HandoverArrives(q, epoch);
      hide CanRunPipe, RunPipe;
    }
  }

  lemma WithdrawnIsNotPending(p: Pipe, epoch: int)
    requires Withdrawn(p, epoch)
    ensures PendingEpoch(p.adapter) != epoch
  {
  }

  // ---------- a direct cycle holds captures back ----------

  predicate PastCheck(w: Worker) { w.Checked? || w.Decided? || w.Selected? }

  predicate BeforeCheck(w: Worker) { w.Converting? || w.Converted? }

  predicate NotNewer(p: Pipe) { BeforeCheck(p.core.worker) ==> p.core.worker.generation <= p.core.generation }

  /** A cycle is active, no capture waits, and any conversion before the generation check will fail it. */
  predicate Held(p: Pipe, epoch: int) {
    && epoch != 0 && p.latch == Latch(Consumed, epoch, epoch) && !p.core.captured
    && (BeforeCheck(p.core.worker) ==> p.core.worker.generation < p.core.generation)
  }

  /** What the worker's sections leave alone. */
  predicate Inside(p: Pipe, q: Pipe) {
    && q.core.panel == p.core.panel && q.core.generation == p.core.generation
    && q.core.background == p.core.background && q.core.backgroundSequence == p.core.backgroundSequence
    && q.history.observed == p.history.observed && q.history.released == p.history.released
    && (BeforeCheck(q.core.worker) ==>
          || q.core.worker.generation == p.core.generation
          || (BeforeCheck(p.core.worker) && q.core.worker.generation == p.core.worker.generation))
  }

  lemma WorkStaysInside(p: Pipe, w: Work)
    requires WorkEnabled(p, w)
    ensures Inside(p, Worked(p, w))
    ensures Worked(p, w).adapter == if w.Deliver? then Enqueued(p.adapter, DeliveredFrame(p)) else p.adapter
    ensures w.Take? || w.Convert? || !BeforeCheck(Worked(p, w).core.worker)
  {
    hide Enqueued, Accepts, DeliveredFrame;
    match w
    case Take => TakeStaysInside(p);
    case Convert(result) => ConvertStaysInside(p, result);
    case Check => hide Inside, GenerationChecked; CheckStaysInside(p);
    case Judge => hide Inside, FrameJudged; JudgeStaysInside(p);
    case Select(same) => hide Inside, RefreshSelected; SelectStaysInside(p, same);
    case Deliver => hide Inside, FrameDelivered; DeliverStaysInside(p);
  }

  lemma TakeStaysInside(p: Pipe)
    ensures Inside(p, Taken(p)) && Taken(p).adapter == p.adapter
    ensures NothingNew(p, Taken(p))
  {
  }

  lemma ConvertStaysInside(p: Pipe, result: Option<Gray>)
    requires p.core.worker.Converting?
    ensures Inside(p, ConversionReturned(p, result)) && ConversionReturned(p, result).adapter == p.adapter
    ensures NothingNew(p, ConversionReturned(p, result))
  {
  }

  lemma CheckStaysInside(p: Pipe)
    requires p.core.worker.Converted?
    ensures Inside(p, GenerationChecked(p)) && GenerationChecked(p).adapter == p.adapter
    ensures !BeforeCheck(GenerationChecked(p).core.worker)
    ensures NothingNew(p, GenerationChecked(p))
  {
  }

  lemma JudgeStaysInside(p: Pipe)
    requires p.core.worker.Checked?
    ensures Inside(p, FrameJudged(p)) && FrameJudged(p).adapter == p.adapter
    ensures !BeforeCheck(FrameJudged(p).core.worker)
  {
    hide Judged, Shown, Chosen, LatchAfter;
  }

  lemma SelectStaysInside(p: Pipe, same: bool)
    requires p.core.worker.Decided?
    ensures Inside(p, RefreshSelected(p, same)) && RefreshSelected(p, same).adapter == p.adapter
    ensures !BeforeCheck(RefreshSelected(p, same).core.worker)
    ensures NothingNew(p, RefreshSelected(p, same))
  {
  }

  lemma DeliverStaysInside(p: Pipe)
    requires p.core.worker.Selected?
    ensures Inside(p, FrameDelivered(p)) && FrameDelivered(p).adapter == Enqueued(p.adapter, DeliveredFrame(p))
    ensures !BeforeCheck(FrameDelivered(p).core.worker)
  {
    hide Enqueued, Accepts, DeliveredFrame, RefreshStands;
  }

  lemma {:induction false} StepKeepsNotNewer(p: Pipe, e: PipeEvent)
    requires NotNewer(p) && PipeEnabled(p, e)
    ensures NotNewer(PipeStep(p, e))
  {
    hide Called, Worked, Step;
    match e
    case Caller(c) => CallMovesGeneration(p, c); CallLeavesWorker(p, c);
    case Conversion(w) => WorkStaysInside(p, w);
    case _ =>
  }

  /** An accepted direct presentation starts such a cycle with its frame as the pending one. */
  lemma PresentHolds(p: Pipe, epoch: int)
    requires NotNewer(p) && PresentOf(p, epoch).PresentAccepted?
    ensures Held(Presented(p, epoch), epoch) && PendingEpoch(Presented(p, epoch).adapter) == epoch
    ensures Presented(p, epoch).adapter.log.accepted == p.adapter.log.accepted + [SleepFrame(p, epoch)]
  {
    SleepFrameFacts(p, epoch);
    EnqueuedFacts(p.adapter, SleepFrame(p, epoch));
    hide SleepFrame, Composed, ValidCandidate, Accepts, Enqueued;
  }

  /** The event outdates every conversion taken before it: a reset, or a presentation that claims its epoch,
      whether or not the adapter then takes its frame. */
  predicate Outdates(p: Pipe, e: PipeEvent) {
    || (e == Caller(ResetSource) && Running(p.core))
    || (e.Caller? && e.call.Present? && Prepared(p, e.call.epoch).PresentAccepted?)
  }

  function Outdated(p: Pipe, events: seq<PipeEvent>): nat
    requires CanRunPipe(p, events)
    decreases |events|
  {
    if events == [] then 0 else One(Outdates(p, events[0])) + Outdated(PipeStep(p, events[0]), events[1..])
  }

  lemma CallMovesGeneration(p: Pipe, c: Control)
    ensures Called(p, c).core.generation == p.core.generation + One(Outdates(p, Caller(c)))
  {
    hide Enqueued, Accepts, DiagnosticCancelled, SleepCancelled, Prepared, SleepFrame, ArmOf, DisarmOutcome;
  }

  lemma CallLeavesWorker(p: Pipe, c: Control)
    ensures Called(p, c).core.worker == p.core.worker
  {
    hide Enqueued, Accepts, DiagnosticCancelled, SleepCancelled, Prepared, SleepFrame, ArmOf, DisarmOutcome;
    hide GrantsRefresh, Publishes, TakesCapture, Running, ArmedBy, DisarmedBy;
  }

  /** The generation counts those events, and a conversion keeps the one it was taken under. */
  lemma {:induction false} StepMovesGeneration(p: Pipe, e: PipeEvent)
    requires PipeEnabled(p, e)
    ensures var q := PipeStep(p, e);
            && q.core.generation == p.core.generation + One(Outdates(p, e))
            && (e != Conversion(Take) && BeforeCheck(q.core.worker) ==>
                  BeforeCheck(p.core.worker) && q.core.worker.generation == p.core.worker.generation)
  {
    hide Called, Worked, Step, Prepared, Inside;
    match e
    case Caller(c) => CallMovesGeneration(p, c); CallLeavesWorker(p, c);
    case Conversion(w) => WorkKeepsStamp(p, w);
    case _ =>
  }

  lemma WorkKeepsStamp(p: Pipe, w: Work)
    requires WorkEnabled(p, w)
    ensures var q := Worked(p, w);
            && q.core.generation == p.core.generation
            && (w != Take && BeforeCheck(q.core.worker) ==>
                  BeforeCheck(p.core.worker) && q.core.worker.generation == p.core.worker.generation)
  {
    WorkStaysInside(p, w);
    hide Taken, GenerationChecked, FrameJudged, RefreshSelected, FrameDelivered, Enqueued;
  }

  lemma {:induction false} RunMovesGeneration(p: Pipe, events: seq<PipeEvent>)
    requires CanRunPipe(p, events) && Conversion(Take) !in events
    ensures var q := RunPipe(p, events);
            && q.core.generation == p.core.generation + Outdated(p, events)
            && (BeforeCheck(q.core.worker) ==>
                  BeforeCheck(p.core.worker) && q.core.worker.generation == p.core.worker.generation)
    decreases |events|
  {
    hide PipeStep, PipeEnabled, BeforeCheck, Outdates;
    if events != [] {
      assert events[0] in events;
      StepMovesGeneration(p, events[0]);
      RunMovesGeneration(PipeStep(p, events[0]), events[1..]);
    }
  }

  /** A conversion goes on past the check if and only if nothing outdated it since its capture was taken. */
  lemma {:induction false} CheckPassesExactly(p: Pipe, events: seq<PipeEvent>)
    requires WorkEnabled(p, Take) && p.core.captured && !p.core.stopping
    requires CanRunPipe(Taken(p), events) && Conversion(Take) !in events
    requires RunPipe(Taken(p), events).core.worker.Converted?
    ensures GenerationChecked(RunPipe(Taken(p), events)).core.worker.Checked? <==> Outdated(Taken(p), events) == 0
  {
    RunMovesGeneration(Taken(p), events);
    hide RunPipe, CanRunPipe, Outdated;
  }

  /** Frames accepted so far plus the one conversion that may still get through. */
  function Reach(p: Pipe): nat { |p.adapter.log.accepted| + One(PastCheck(p.core.worker)) }

  lemma CallKeepsHeld(p: Pipe, c: Control, epoch: int)
    requires Held(p, epoch) && c != Disarm(epoch)
    ensures Held(Called(p, c), epoch) && Reach(Called(p, c)) <= Reach(p)
  {
    CancelledFacts(p.adapter, 0);
    hide Composed, ValidCandidate, SleepFrame, Enqueued, Accepts, SleepCancelled, DiagnosticCancelled;
    match c
    case Present(e) => assert !Prepared(p, e).PresentAccepted?;
    case _ =>
  }

  lemma WorkKeepsHeld(p: Pipe, w: Work, epoch: int)
    requires Held(p, epoch) && WorkEnabled(p, w)
    ensures Held(Worked(p, w), epoch) && Reach(Worked(p, w)) <= Reach(p)
  {
    if w.Deliver? { EnqueuedFacts(p.adapter, DeliveredFrame(p)); }
    hide Enqueued, Accepts, Shown, Chosen, Fits, Dark, FullFrame, DeliveredFrame, RefreshStands;
  }

  lemma {:induction false} StepKeepsHeld(p: Pipe, e: PipeEvent, epoch: int)
    requires Held(p, epoch) && PipeEnabled(p, e) && e != Caller(Disarm(epoch))
    ensures Held(PipeStep(p, e), epoch) && Reach(PipeStep(p, e)) <= Reach(p)
  {
    hide Called, Worked, Step, Retainable;
    match e
    case Caller(c) => CallKeepsHeld(p, c, epoch);
    case Conversion(w) => WorkKeepsHeld(p, w, epoch);
    case Adapter(a) => StepFacts(p.adapter, a);
    case Observe =>
  }

  /** Until the matching disarm, any run lets at most one more frame into the adapter, and only if a
      conversion had already passed the generation check. */
  lemma {:induction false} DirectCycleHolds(p: Pipe, events: seq<PipeEvent>, epoch: int)
    requires Held(p, epoch) && CanRunPipe(p, events) && Caller(Disarm(epoch)) !in events
    ensures var q := RunPipe(p, events);
            && Held(q, epoch) && Reach(q) <= Reach(p)
            && |q.adapter.log.accepted| <= |p.adapter.log.accepted| + One(PastCheck(p.core.worker))
    decreases |events|
  {
    hide Held, PipeStep, PipeEnabled, PastCheck;
    if events != [] {
      assert events[0] in events;
      StepKeepsHeld(p, events[0], epoch);
      DirectCycleHolds(PipeStep(p, events[0]), events[1..], epoch);
    }
  }

  // ---------- no diagnostic flash while asleep or disabled ----------

  /** While a sleep cycle is active or presentation is disabled, no pending frame carries a diagnostic request. */
  predicate Quiet(p: Pipe) { p.latch.active != 0 || !p.core.enabled ==> PendingRequest(p.adapter) == 0 }

  /** Stop disables a running pipeline and leaves the adapter's pending request alone. */
  predicate StopsOver(p: Pipe, e: PipeEvent) {
    e == Caller(StopPipe) && Running(p.core) && PendingRequest(p.adapter) != 0
  }

  lemma CallKeepsQuiet(p: Pipe, c: Control)
    requires Quiet(p)
    ensures Quiet(Called(p, c)) <==> !StopsOver(p, Caller(c))
  {
    hide PendingRequest;
    match c
    case Present(e) =>
      if Prepared(p, e).PresentAccepted? {
        SleepFrameFacts(p, e);
        EnqueuedFacts(p.adapter, SleepFrame(p, e));
        hide SleepFrame, Composed, ValidCandidate, Accepts, Enqueued;
      }
    case Arm(e) => CancelledFacts(p.adapter, 0); hide DiagnosticCancelled;
    case Disarm(e) => CancelledFacts(p.adapter, e); hide SleepCancelled;
    case SetEnabled(on) => CancelledFacts(p.adapter, 0); hide DiagnosticCancelled;
    case _ =>
  }

  lemma WorkKeepsQuiet(p: Pipe, w: Work)
    requires Quiet(p) && WorkEnabled(p, w)
    ensures Quiet(Worked(p, w))
  {
    hide FullFrame, Dark, Fits, Enqueued, Accepts, PendingRequest;
    if w.Deliver? {
      EnqueuedFacts(p.adapter, DeliveredFrame(p));
      assert !RefreshStands(p) ==> DeliveredFrame(p).request == 0;
      hide DeliveredFrame;
    }
  }

  /** Every section keeps the adapter quiet, except one: Stop over a pending request. */
  lemma {:induction false} StepKeepsQuietExactly(p: Pipe, e: PipeEvent)
    requires Quiet(p) && PipeEnabled(p, e)
    ensures Quiet(PipeStep(p, e)) <==> !StopsOver(p, e)
  {
    hide Called, Worked, Step, PendingRequest;
    match e
    case Caller(c) => CallKeepsQuiet(p, c);
    case Conversion(w) => WorkKeepsQuiet(p, w);
    case Adapter(a) => StepFacts(p.adapter, a);
    case Observe =>
  }

  predicate QuietThroughout(p: Pipe, events: seq<PipeEvent>)
    requires CanRunPipe(p, events)
    decreases |events|
  {
    Quiet(p) && (events != [] ==> QuietThroughout(PipeStep(p, events[0]), events[1..]))
  }

  predicate NeverStopsOver(p: Pipe, events: seq<PipeEvent>)
    requires CanRunPipe(p, events)
    decreases |events|
  {
    events != [] ==> !StopsOver(p, events[0]) && NeverStopsOver(PipeStep(p, events[0]), events[1..])
  }

  /** So a run is quiet throughout if and only if it never stops a running pipeline over a pending request. */
  lemma {:induction false} RunIsQuietExactly(p: Pipe, events: seq<PipeEvent>)
    requires Quiet(p) && CanRunPipe(p, events)
    ensures QuietThroughout(p, events) <==> NeverStopsOver(p, events)
    decreases |events|
  {
    hide Quiet, StopsOver, PipeStep, PipeEnabled;
    if events != [] {
      StepKeepsQuietExactly(p, events[0]);
      if !StopsOver(p, events[0]) { RunIsQuietExactly(PipeStep(p, events[0]), events[1..]); }
    }
  }

  /** Until Stop, then, it is quiet in every run. */
  predicate NoFlash(p: Pipe) { !p.core.stopping ==> Quiet(p) }

  lemma {:induction false} StopIsKept(p: Pipe, e: PipeEvent)
    requires PipeEnabled(p, e)
    ensures p.core.stopping || StopsOver(p, e) ==> PipeStep(p, e).core.stopping
  {
    hide Prepared, SleepFrame, Enqueued, Accepts, DiagnosticCancelled, SleepCancelled, Step, ArmOf, DisarmOutcome;
    hide Judged, LatchAfter, Shown, Chosen, DeliveredFrame, Retainable, RefreshStands;
  }

  lemma {:induction false} StepKeepsNoFlash(p: Pipe, e: PipeEvent)
    requires NoFlash(p) && PipeEnabled(p, e)
    ensures NoFlash(PipeStep(p, e))
  {
    hide Quiet, StopsOver, PipeStep, PipeEnabled;
    StopIsKept(p, e);
    if !p.core.stopping { StepKeepsQuietExactly(p, e); }
  }

  lemma {:induction false} RunKeepsNoFlash(p: Pipe, events: seq<PipeEvent>)
    requires NoFlash(p) && CanRunPipe(p, events)
    ensures NoFlash(RunPipe(p, events))
    decreases |events|
  {
    hide NoFlash, PipeStep, PipeEnabled;
    if events != [] {
      StepKeepsNoFlash(p, events[0]);
      RunKeepsNoFlash(PipeStep(p, events[0]), events[1..]);
    }
  }

  // ---------- the page under an overlay ----------

  /** The retained page is the gray image of an ordinary frame the engine accepted: of those observed since the
      last release it is the newest one that can serve, and there is none exactly when no page is retained. */
  ghost predicate PageIsReal(p: Pipe) {
    && p.history.released <= p.history.observed <= |p.adapter.log.submissions|
    && (p.core.background == [] ==> p.core.backgroundSequence == 0)
    && (p.core.background != [] ==> exists k: nat :: p.history.released <= k < p.history.observed && IsPage(p, k))
    && (forall k: nat :: p.history.released <= k < p.history.observed ==> NotNewerThanPage(p, k))
  }

  predicate IsPage(p: Pipe, k: nat)
    requires k < |p.adapter.log.submissions|
  {
    var s := p.adapter.log.submissions[k];
    Retainable(p.core.panel, s) && s.flight.frame.grayscale.value == p.core.background
      && s.flight.frame.sequence == p.core.backgroundSequence
  }

  predicate NotNewerThanPage(p: Pipe, k: nat)
    requires k < |p.adapter.log.submissions|
  {
    var s := p.adapter.log.submissions[k];
    Retainable(p.core.panel, s) ==> s.flight.frame.sequence <= p.core.backgroundSequence
  }

  /** The page and its window of observations are the same, or were just released. */
  predicate SamePage(p: Pipe, q: Pipe) {
    && q.core.panel == p.core.panel && q.history.observed == p.history.observed
    && p.adapter.log.submissions <= q.adapter.log.submissions
    && (|| (q.core.background == p.core.background && q.core.backgroundSequence == p.core.backgroundSequence
            && q.history.released == p.history.released)
        || (q.core.background == [] && q.core.backgroundSequence == 0 && q.history.released == p.history.observed))
  }

  lemma SamePageStaysReal(p: Pipe, q: Pipe)
    requires PageIsReal(p) && SamePage(p, q)
    ensures PageIsReal(q)
  {
    hide Retainable;
    forall k: nat | q.history.released <= k < q.history.observed ensures NotNewerThanPage(q, k) {
      assert NotNewerThanPage(p, k) && q.adapter.log.submissions[k] == p.adapter.log.submissions[k];
    }
    if q.core.background != [] {
      var k: nat :| p.history.released <= k < p.history.observed && IsPage(p, k);
      assert q.adapter.log.submissions[k] == p.adapter.log.submissions[k];
      assert IsPage(q, k);
    }
  }

  lemma PresentKeepsPage(p: Pipe, epoch: int)
    ensures SamePage(p, Presented(p, epoch))
  {
    if Prepared(p, epoch).PresentAccepted? {
      SleepFrameFacts(p, epoch);
      EnqueuedFacts(p.adapter, SleepFrame(p, epoch));
    }
    hide SleepFrame, Accepts, Enqueued, Prepared;
  }

  lemma CancelKeepsPage(p: Pipe, epoch: int)
    ensures SamePage(p, CycleArmed(p, epoch)) && SamePage(p, CycleDisarmed(p, epoch))
      && SamePage(p, EnabledAs(p, epoch == 0))
  {
    CancelledFacts(p.adapter, epoch);
    hide DiagnosticCancelled, SleepCancelled, ArmOf, ArmedBy, DisarmOutcome, DisarmedBy;
  }

  lemma CallKeepsPage(p: Pipe, c: Control)
    ensures SamePage(p, Called(p, c))
  {
    hide Presented, CycleArmed, CycleDisarmed, EnabledAs;
    match c
    case Present(e) => PresentKeepsPage(p, e);
    case Arm(e) => CancelKeepsPage(p, e);
    case Disarm(e) => CancelKeepsPage(p, e);
    case SetEnabled(on) => CancelKeepsPage(p, if on then 0 else 1);
    case _ =>
  }

  lemma WorkKeepsPage(p: Pipe, w: Work)
    requires WorkEnabled(p, w)
    ensures SamePage(p, Worked(p, w))
  {
    WorkStaysInside(p, w);
    if w.Deliver? { EnqueuedFacts(p.adapter, DeliveredFrame(p)); }
    hide Enqueued, Accepts, Worked, DeliveredFrame;
  }

  lemma ObserveKeepsPage(p: Pipe)
    requires PageIsReal(p) && p.history.observed < |p.adapter.log.submissions|
    ensures PageIsReal(Observed(p))
  {
    var q, s := Observed(p), p.adapter.log.submissions[p.history.observed];
    ObservedPage(p);
    hide Retainable, Observed;
    forall k: nat | q.history.released <= k < q.history.observed ensures NotNewerThanPage(q, k) {
      if k < p.history.observed { assert NotNewerThanPage(p, k); }
    }
    if q.core.background != [] {
      if q.core.backgroundSequence == p.core.backgroundSequence {
        var k: nat :| p.history.released <= k < p.history.observed && IsPage(p, k);
        assert IsPage(q, k);
      } else {
        assert IsPage(q, p.history.observed);
      }
    }
  }

  /** An observation keeps the page or replaces it by a newer one that can serve. */
  lemma ObservedPage(p: Pipe)
    requires p.history.observed < |p.adapter.log.submissions|
    ensures var q, s := Observed(p), p.adapter.log.submissions[p.history.observed];
            && q.core.panel == p.core.panel && q.adapter == p.adapter
            && q.history.released == p.history.released && q.history.observed == p.history.observed + 1
            && (if Retainable(p.core.panel, s) && s.flight.frame.sequence > p.core.backgroundSequence
                then s.flight.frame.grayscale == Some(q.core.background) && q.core.background != []
                     && q.core.backgroundSequence == s.flight.frame.sequence
                else q.core.background == p.core.background && q.core.backgroundSequence == p.core.backgroundSequence)
  {
    hide Overlay.PanelGray;
    var s := p.adapter.log.submissions[p.history.observed];
    if Retainable(p.core.panel, s) { NonEmptyPanel(p.core.panel); }
  }

  lemma NonEmptyPanel(panel: Panel)
    requires panel.width > 0 && panel.height > 0
    ensures PanelBytes(panel) > 0
  {
    assert panel.width * panel.height >= 1;
  }

  lemma {:induction false} StepKeepsPage(p: Pipe, e: PipeEvent)
    requires PageIsReal(p) && PipeEnabled(p, e)
    ensures PageIsReal(PipeStep(p, e))
  {
    hide PageIsReal, SamePage, Called, Worked, Step, Observed;
    match e
    case Caller(c) => CallKeepsPage(p, c); SamePageStaysReal(p, PipeStep(p, e));
    case Conversion(w) => WorkKeepsPage(p, w); SamePageStaysReal(p, PipeStep(p, e));
    case Adapter(a) => AdapterKeepsPage(p, a); SamePageStaysReal(p, PipeStep(p, e));
    case Observe => ObserveKeepsPage(p);
  }

  lemma {:induction false} RunKeepsPage(p: Pipe, events: seq<PipeEvent>)
    requires PageIsReal(p) && CanRunPipe(p, events)
    ensures PageIsReal(RunPipe(p, events))
    decreases |events|
  {
    hide PageIsReal, PipeStep, PipeEnabled;
    if events != [] {
      StepKeepsPage(p, events[0]);
      RunKeepsPage(PipeStep(p, events[0]), events[1..]);
    }
  }

  lemma {:induction false} AdapterKeepsPage(p: Pipe, a: Event)
    requires PipeEnabled(p, Adapter(a))
    ensures SamePage(p, PipeStep(p, Adapter(a)))
  {
    StepFacts(p.adapter, a);
    hide Step;
  }

  // ---------- everything together ----------

  /** What holds between any two sections of the pipeline, its worker and its adapter. */
  ghost predicate Sound(p: Pipe) {
    Frames(p) && NotNewer(p) && NoFlash(p) && PageIsReal(p) && Good(p.adapter)
  }

  lemma CallKeepsGood(p: Pipe, c: Control)
    requires Good(p.adapter)
    ensures Good(Called(p, c).adapter)
  {
    hide Good, Enqueued, SleepCancelled, DiagnosticCancelled, SleepFrame, Prepared, Accepts;
    match c
    case Present(epoch) => if Prepared(p, epoch).PresentAccepted? { EnqueueKeeps(p.adapter, SleepFrame(p, epoch)); }
    case Arm(epoch) => DiagnosticCancelKeeps(p.adapter);
    case Disarm(epoch) => SleepCancelKeeps(p.adapter, epoch);
    case SetEnabled(on) => DiagnosticCancelKeeps(p.adapter);
    case _ =>
  }

  lemma WorkKeepsGood(p: Pipe, w: Work)
    requires Good(p.adapter) && WorkEnabled(p, w)
    ensures Good(Worked(p, w).adapter)
  {
    WorkStaysInside(p, w);
    hide Good, Worked, Enqueued, DeliveredFrame;
    if w.Deliver? { EnqueueKeeps(p.adapter, DeliveredFrame(p)); }
  }

  lemma StepKeepsGood(p: Pipe, e: PipeEvent)
    requires Good(p.adapter) && PipeEnabled(p, e)
    ensures Good(PipeStep(p, e).adapter)
  {
    hide Good, Called, Worked, Step;
    match e
    case Caller(c) => CallKeepsGood(p, c);
    case Conversion(w) => WorkKeepsGood(p, w);
    case Adapter(a) => StepKeeps(p.adapter, a);
    case Observe =>
  }

  lemma StepKeepsSound(p: Pipe, e: PipeEvent)
    requires Sound(p) && PipeEnabled(p, e)
    ensures Sound(PipeStep(p, e))
  {
    hide Frames, NotNewer, NoFlash, PageIsReal, Good, PipeStep, PipeEnabled;
    StepKeepsFrames(p, e);
    StepKeepsNotNewer(p, e);
    StepKeepsNoFlash(p, e);
    StepKeepsPage(p, e);
    StepKeepsGood(p, e);
  }

  lemma FreshFrames(p: Pipe)
    requires IsFreshPipe(p)
    ensures Frames(p)
  {
    assert p.adapter.log.accepted == [] && PendingEpoch(p.adapter) == 0;
    hide IsFresh, PendingEpoch, FullFrame;
  }

  lemma FreshPage(p: Pipe)
    requires IsFreshPipe(p)
    ensures PageIsReal(p) && NotNewer(p) && NoFlash(p)
  {
    assert p.adapter.log.submissions == [] && PendingRequest(p.adapter) == 0;
    hide IsFresh, PendingRequest, Retainable;
  }

  lemma FreshIsSound(p: Pipe)
    requires IsFreshPipe(p)
    ensures Sound(p)
  {
    FreshFrames(p);
    FreshPage(p);
    FreshIsGood(p.adapter);
    hide IsFresh, Frames, NotNewer, NoFlash, PageIsReal, Good;
  }

  lemma {:induction false} RunKeepsSound(p: Pipe, events: seq<PipeEvent>)
    requires Sound(p) && CanRunPipe(p, events)
    ensures Sound(RunPipe(p, events))
    decreases |events|
  {
    hide Sound, PipeStep, PipeEnabled;
    if events != [] {
      StepKeepsSound(p, events[0]);
      RunKeepsSound(PipeStep(p, events[0]), events[1..]);
    }
  }

  /** Every reachable state of the pipeline, worker and adapter together is sound. */
  lemma EveryPipeRun(p: Pipe, events: seq<PipeEvent>)
    requires IsFreshPipe(p) && CanRunPipe(p, events)
    ensures Sound(RunPipe(p, events))
  {
    FreshIsSound(p);
    hide *;
    RunKeepsSound(p, events);
  }

  /** An accepted direct presentation shows panel gray between the image and the page below it: the image
      where it covers, the page where it does not; and an overlay's page is the newest accepted ordinary frame
      that can serve, of those observed since the last release. */
  lemma PresentShows(p: Pipe, epoch: int)
    requires PageIsReal(p) && PresentOf(p, epoch).PresentAccepted?
    ensures p.core.catalog.Some? && ValidCandidate(p.core.catalog.value.selected, p.core.panel)
    ensures var c := p.core.catalog.value.selected;
            var page := Page(p, |c.buffer.value|);
            var shown := SleepFrame(p, epoch).grayscale;
            && shown.Some? && |shown.value| == |page| == PanelBytes(p.core.panel) && Overlay.PanelGray(shown.value)
            && (forall i :: 0 <= i < |page| ==>
                  Min(c.buffer.value[i], page[i]) <= shown.value[i] <= Max(c.buffer.value[i], page[i]))
            && (forall i :: 0 <= i < |page| && c.alpha.value[i] == 255 ==> shown.value[i] == c.buffer.value[i])
            && (forall i :: 0 <= i < |page| && c.alpha.value[i] == 0 ==> shown.value[i] == page[i])
    ensures p.core.catalog.value.mode == Overlaid ==>
              exists k: nat :: p.history.released <= k < p.history.observed && IsPage(p, k)
    ensures forall k: nat :: p.history.released <= k < p.history.observed ==> NotNewerThanPage(p, k)
  {
    var c := p.core.catalog.value.selected;
    Overlay.CompositeBounds(c.buffer.value, c.alpha.value, Page(p, |c.buffer.value|),
                            if c.rgba.Some? then c.rgba.value else []);
  }

  // ---------- the latch and the pipeline as objects ----------

  datatype Outcome = NoOutcome | CandidateReplaced | CatalogMissing | DuplicateSuppressed

  datatype Summary = Summary(valid: bool, minimum: byte, maximum: byte, mean: byte, before: LatchState,
      decision: Decision, outcome: Outcome)

  function SumOf(bytes: seq<byte>): nat {
    if bytes == [] then 0 else SumOf(bytes[..|bytes| - 1]) + bytes[|bytes| - 1]
  }

  predicate Summarizes(s: Summary, bytes: seq<byte>) {
    && (forall i :: 0 <= i < |bytes| ==> s.minimum <= bytes[i] <= s.maximum)
    && s.minimum in bytes && s.maximum in bytes
    && |bytes| > 0 && s.mean * |bytes| <= SumOf(bytes) < (s.mean + 1) * |bytes|
  }

  lemma MeanFits(sum: nat, n: nat)
    requires 0 < n && sum <= 255 * n
    ensures 0 <= sum / n <= 255 && sum / n * n <= sum < (sum / n + 1) * n
  {
    assert sum == sum / n * n + sum % n;
    if sum / n > 255 { Product(sum / n - 256, n); }
  }

  lemma Product(a: nat, n: nat)
    ensures (a + 256) * n >= 256 * n
  {
    assert (a + 256) * n == a * n + 256 * n;
  }

  method Summarize(bytes: seq<byte>, before: LatchState) returns (s: Summary)
    requires bytes != []
    ensures s.valid && s.before == before && Summarizes(s, bytes)
    ensures s.maximum > MAX_SLEEP_GRAY <==> exists i :: 0 <= i < |bytes| && bytes[i] > MAX_SLEEP_GRAY
  {
    var least: byte, most: byte, sum := 255, 0, 0;
    for index := 0 to |bytes|
      invariant forall i :: 0 <= i < index ==> least <= bytes[i] <= most
      invariant index > 0 ==> least in bytes && most in bytes
      invariant index == 0 ==> least == 255 && most == 0
      invariant sum == SumOf(bytes[..index]) && sum <= 255 * index
    {
      least := if bytes[index] < least then bytes[index] else least;
      most := if bytes[index] > most then bytes[index] else most;
      assert bytes[..index + 1][..index] == bytes[..index];
      sum := sum + bytes[index];
    }
    assert bytes[..|bytes|] == bytes;
    MeanFits(sum, |bytes|);
    s := Summary(true, least, most, sum / |bytes|, before, PassThrough, NoOutcome);
  }

  class SleepImageLatch {
    var state: LatchState
    var lastArmedEpoch: int
    var activeEpoch: int
    var lastOutcome: Outcome
    var lastEvaluation: Option<Summary>

    function Abs(): Latch
      reads this
    {
      Latch(state, lastArmedEpoch, activeEpoch)
    }

    constructor ()
      ensures Abs() == Latch(Inactive, 0, 0)
    {
      state, lastArmedEpoch, activeEpoch, lastOutcome, lastEvaluation := Inactive, 0, 0, NoOutcome, None;
    }

    method ArmSleepCycle(epoch: int) returns (r: ArmResult)
      modifies this
      ensures r == ArmOutcome(old(Abs()), epoch) && Abs() == ArmedBy(old(Abs()), epoch)
    {
      if epoch == 0 { return ArmZero; }
      if epoch < lastArmedEpoch { return ArmStale; }
      if epoch == lastArmedEpoch { return ArmDuplicate; }
      if activeEpoch != 0 { return ArmMismatched; }
      lastArmedEpoch := epoch;
      activeEpoch := epoch;
      state := Armed;
      return ArmAccepted;
    }

    method BeginPresentation(epoch: int) returns (r: PresentResult)
      modifies this
      ensures r == BeginOutcome(old(Abs()), epoch) && Abs() == BegunBy(old(Abs()), epoch)
    {
      if epoch == 0 { return PresentZero; }
      if activeEpoch == 0 { return PresentInactive; }
      if epoch != activeEpoch { return PresentMismatched; }
      if state != Armed { return PresentDuplicate; }
      state := Consumed;
      return PresentAccepted;
    }

    method DisarmSleepCycle(epoch: int) returns (r: DisarmResult)
      modifies this
      ensures r == DisarmOutcome(old(Abs()), epoch) && Abs() == DisarmedBy(old(Abs()), epoch)
    {
      if epoch == 0 { return DisarmZero; }
      if activeEpoch == 0 { return DisarmInactive; }
      if epoch != activeEpoch { return DisarmMismatched; }
      activeEpoch := 0;
      state := Inactive;
      return DisarmAccepted;
    }

    /** Judges one converted frame and returns its buffer as it goes on. */
    method Evaluate(g: Gray, selector: Option<(int, int) -> Candidate>) returns (d: Decision, shown: Gray)
      modifies this
      ensures var selected := if selector.Some? then Some(selector.value(g.width, g.height)) else None;
              && d == Judged(old(Abs()), g, selected) && shown == Shown(old(Abs()), g, selected)
              && Abs() == LatchAfter(old(Abs()), g, selected)
      ensures lastEvaluation.Some? <==> FullFrame(g)
      ensures lastEvaluation.Some? ==> lastEvaluation.value.decision == d && Summarizes(lastEvaluation.value, g.pixels)
    {
      lastOutcome, lastEvaluation, shown := NoOutcome, None, g;
      if g.width <= 0 || g.height <= 0 || g.width > INT_MAX / g.height || |g.pixels| != g.width * g.height {
        return PassThrough, g;
      }
      FrameIsNotEmpty(g);
      var summary := Summarize(g.pixels, state);
      if summary.maximum > MAX_SLEEP_GRAY || state == Inactive {
        d := PassThrough;
      } else if state == Consumed {
        lastOutcome, d := DuplicateSuppressed, Suppress;
      } else if state == BlackFallback {
        lastOutcome, d := CatalogMissing, PassThrough;
      } else if selector.None? {
        state, lastOutcome, d := BlackFallback, CatalogMissing, PassThrough;
      } else {
        var candidate := selector.value(g.width, g.height);
        if candidate.buffer.None? || candidate.width != g.width || candidate.height != g.height
           || |candidate.buffer.value| != |g.pixels| {
          state, lastOutcome, d := BlackFallback, CatalogMissing, PassThrough;
        } else {
          state, lastOutcome, d := Consumed, CandidateReplaced, Replace;
          shown := g.(pixels := candidate.buffer.value);
        }
      }
      lastEvaluation := Some(summary.(decision := d, outcome := lastOutcome));
    }
  }

  lemma FrameIsNotEmpty(g: Gray)
    requires g.width > 0 && g.height > 0 && |g.pixels| == g.width * g.height
    ensures g.pixels != []
  {
    assert g.width * g.height >= 1;
  }
}
