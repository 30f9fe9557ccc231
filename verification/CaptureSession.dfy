/** One capture call: admission, the resample seam, the pool's answer, and the pressure accounting that must
    reconcile over any number of calls. */
module CaptureSession {
  import opened Bits
  import opened Wrappers
  import Resample
  import Snapshots

  // ---------- admission ----------

  datatype Reason = NoRetainedCandidate | NoNextEligibleSlot | ElapsedOutputSlot | ClosedSlotSkip | LateReplacement
  datatype Admission = Capture | SkipRetained | CaptureLate

  datatype Gate = Gate(window: int, lateSlot: Option<int>, reason: Reason, allowed: nat, skipped: nat, late: nat)

  /** Milliseconds. */
  predicate ValidWindow(ms: int) { 25 <= ms <= 250 }

  function ReasonOf(g: Gate, retained: bool, next: Option<int>, now: int): Reason {
    if !retained then NoRetainedCandidate
    else if next.None? then NoNextEligibleSlot
    else if now >= next.value then ElapsedOutputSlot
    else if next.value - now <= g.window && g.lateSlot != next then LateReplacement
    else ClosedSlotSkip
  }

  function Admits(r: Reason): Admission {
    match r
    case ClosedSlotSkip => SkipRetained
    case LateReplacement => CaptureLate
    case _ => Capture
  }

  function Evaluated(g: Gate, retained: bool, next: Option<int>, now: int): Gate {
    var r := ReasonOf(g, retained, next, now);
    match Admits(r)
    case Capture => g.(reason := r, allowed := g.allowed + 1)
    case SkipRetained => g.(reason := r, skipped := g.skipped + 1)
    case CaptureLate => g.(reason := r, lateSlot := next, late := g.late + 1)
  }

  function Reconfigured(g: Gate, window: int): Gate {
    if !ValidWindow(window) || window == g.window then g else g.(window := window, lateSlot := None)
  }

  /** A retained candidate is skipped exactly while its slot is closed and the window is not open or spent. */
  lemma SkippedMeans(g: Gate, retained: bool, next: Option<int>, now: int)
    ensures Admits(ReasonOf(g, retained, next, now)) == SkipRetained <==>
            retained && next.Some? && now < next.value && (next.value - now > g.window || g.lateSlot == next)
  {
  }

  datatype Question = Question(retained: bool, next: Option<int>, now: int)

  // ---------- late replacements over runs ----------

  /** What one capture call asks of the gate: a window first, then a question unless a resample skips it. */
  datatype Ask = Ask(window: int, question: Option<Question>)

  function Asked(g: Gate, a: Ask): Gate {
    var h := Reconfigured(g, a.window);
    match a.question
    case None => h
    case Some(q) => Evaluated(h, q.retained, q.next, q.now)
  }

  function GateAfter(g: Gate, run: seq<Ask>): Gate {
    if run == [] then g else Asked(GateAfter(g, run[..|run| - 1]), run[|run| - 1])
  }

  /** Call k of the run is admitted as a late replacement. */
  predicate AdmitsLate(g: Gate, run: seq<Ask>, k: nat)
    requires k < |run|
  {
    && run[k].question.Some?
    && var q := run[k].question.value;
       ReasonOf(Reconfigured(GateAfter(g, run[..k]), run[k].window), q.retained, q.next, q.now) == LateReplacement
  }

  /** The window in force after the run: the last valid one. */
  function WindowAfter(window: int, run: seq<Ask>): int {
    if run == [] then window
    else
      var last := run[|run| - 1];
      if ValidWindow(last.window) then last.window else WindowAfter(window, run[..|run| - 1])
  }

  predicate WindowChanges(window: int, run: seq<Ask>, k: nat)
    requires k < |run|
  {
    WindowAfter(window, run[..k + 1]) != WindowAfter(window, run[..k])
  }

  /** Call k asks about a closed slot whose late window is open. */
  predicate InWindow(window: int, run: seq<Ask>, k: nat)
    requires k < |run|
  {
    && run[k].question.Some?
    && var q := run[k].question.value;
       q.retained && q.next.Some? && 0 < q.next.value - q.now <= WindowAfter(window, run[..k + 1])
  }

  predicate AsksFor(window: int, run: seq<Ask>, k: nat, slot: int)
    requires k < |run|
  {
    InWindow(window, run, k) && run[k].question.value.next == Some(slot)
  }

  /** Call m makes a gate that remembers the slot forget it before call j: the window changes, or an in-window
      question asks for another slot. */
  predicate Disturbs(window: int, run: seq<Ask>, m: nat, j: nat, slot: int)
    requires m <= j < |run|
  {
    WindowChanges(window, run, m) || (m < j && InWindow(window, run, m) && !AsksFor(window, run, m, slot))
  }

  predicate Undisturbed(window: int, run: seq<Ask>, i: nat, j: nat, slot: int)
    requires i < j < |run|
  {
    forall m :: i < m <= j ==> !Disturbs(window, run, m, j, slot)
  }

  ghost predicate Contiguous(window: int, run: seq<Ask>) {
    forall i, j, slot :: 0 <= i < j < |run| && AsksFor(window, run, i, slot) && AsksFor(window, run, j, slot) ==>
      Undisturbed(window, run, i, j, slot)
  }

  ghost predicate OncePerSlot(g: Gate, run: seq<Ask>) {
    forall i, j :: 0 <= i < j < |run| && AdmitsLate(g, run, i) && AdmitsLate(g, run, j) ==>
      run[i].question.value.next != run[j].question.value.next
  }

  /** The slot of the last in-window question, unless the window changed after it. */
  function LastSlot(window: int, run: seq<Ask>): (slot: Option<int>) {
    if run == [] then None
    else
      var last := |run| - 1;
      if InWindow(window, run, last) then run[last].question.value.next
      else if WindowChanges(window, run, last) then None
      else LastSlot(window, run[..last])
  }

  /** That is what the gate remembers. */
  lemma {:induction false} GateRemembers(g: Gate, run: seq<Ask>)
    requires g.lateSlot == None
    ensures GateAfter(g, run).window == WindowAfter(g.window, run)
    ensures GateAfter(g, run).lateSlot == LastSlot(g.window, run)
    decreases |run|
  {
    if run != [] {
      GateRemembers(g, run[..|run| - 1]);
      assert run[..|run|] == run;
    }
  }

  lemma {:induction false} LateMeans(g: Gate, run: seq<Ask>, k: nat)
    requires g.lateSlot == None && k < |run|
    ensures AdmitsLate(g, run, k) <==>
            InWindow(g.window, run, k)
            && (WindowChanges(g.window, run, k) || LastSlot(g.window, run[..k]) != run[k].question.value.next)
  {
    GateRemembers(g, run[..k]);
    assert run[..k + 1][..k] == run[..k];
  }

  lemma {:induction false} LastSlotStep(window: int, run: seq<Ask>, k: nat)
    requires k < |run|
    ensures LastSlot(window, run[..k + 1]) ==
            if InWindow(window, run, k) then run[k].question.value.next
            else if WindowChanges(window, run, k) then None
            else LastSlot(window, run[..k])
  {
    var front := run[..k + 1];
    assert front[..k] == run[..k] && front[..k + 1] == front;
  }

  lemma {:induction false} StaysLast(window: int, run: seq<Ask>, i: nat, n: nat, j: nat, slot: int)
    requires i < n <= j < |run| && AsksFor(window, run, i, slot)
    requires forall m :: i < m < n ==> !Disturbs(window, run, m, j, slot)
    ensures LastSlot(window, run[..n]) == Some(slot)
    decreases n
  {
    LastSlotStep(window, run, n - 1);
    hide LastSlot, WindowChanges, InWindow;
    if i < n - 1 {
      assert !Disturbs(window, run, n - 1, j, slot);
      StaysLast(window, run, i, n - 1, j, slot);
    }
  }

  /** A slot that comes to be remembered was admitted late on the way. */
  lemma {:induction false} SomeLate(g: Gate, run: seq<Ask>, from: nat, n: nat, slot: int) returns (k: nat)
    requires g.lateSlot == None && from <= n <= |run|
    requires LastSlot(g.window, run[..n]) == Some(slot) && LastSlot(g.window, run[..from]) != Some(slot)
    ensures from <= k < n && AdmitsLate(g, run, k) && run[k].question.value.next == Some(slot)
    decreases n
  {
    LastSlotStep(g.window, run, n - 1);
    LateMeans(g, run, n - 1);
    hide LastSlot, WindowChanges, InWindow, AdmitsLate;
    if LastSlot(g.window, run[..n - 1]) == Some(slot) {
      k := SomeLate(g, run, from, n - 1, slot);
    } else {
      k := n - 1;
    }
  }

  /** Two in-window questions for one slot with something between them: it is admitted late twice. */
  lemma {:induction false} DisturbedTwice(g: Gate, run: seq<Ask>, i: nat, j: nat, slot: int)
    requires g.lateSlot == None && i < j < |run|
    requires AsksFor(g.window, run, i, slot) && AsksFor(g.window, run, j, slot)
    requires !Undisturbed(g.window, run, i, j, slot)
    ensures !OncePerSlot(g, run)
  {
    LastSlotStep(g.window, run, i);
    assert run[..0] == [];
    var first := SomeLate(g, run, 0, i + 1, slot);
    var second := LateAgain(g, run, i, j, slot);
    assert first < second;
  }

  lemma {:induction false} LateAgain(g: Gate, run: seq<Ask>, i: nat, j: nat, slot: int) returns (second: nat)
    requires g.lateSlot == None && i < j < |run|
    requires AsksFor(g.window, run, i, slot) && AsksFor(g.window, run, j, slot)
    requires !Undisturbed(g.window, run, i, j, slot)
    ensures i < second < |run| && AdmitsLate(g, run, second) && run[second].question.value.next == Some(slot)
  {
    var m :| i < m <= j && Disturbs(g.window, run, m, j, slot);
    LastSlotStep(g.window, run, j);
    Forgotten(g, run, m, j, slot);
    hide LastSlot, InWindow, AdmitsLate, Disturbs;
    if AdmitsLate(g, run, m) && run[m].question.value.next == Some(slot) {
      second := m;
    } else {
      second := SomeLate(g, run, m + 1, j + 1, slot);
    }
  }

  /** Behind the disturbance the gate remembers something else, unless it asked for the slot itself. */
  lemma {:induction false} Forgotten(g: Gate, run: seq<Ask>, m: nat, j: nat, slot: int)
    requires g.lateSlot == None && m <= j < |run| && Disturbs(g.window, run, m, j, slot)
    requires AsksFor(g.window, run, j, slot)
    ensures if AsksFor(g.window, run, m, slot) then AdmitsLate(g, run, m) && run[m].question.value.next == Some(slot)
            else m < j && LastSlot(g.window, run[..m + 1]) != Some(slot)
  {
    LateMeans(g, run, m);
    LastSlotStep(g.window, run, m);
    hide LastSlot, AdmitsLate, WindowAfter, WindowChanges;
  }

  /** From a fresh gate, no slot is admitted late twice if and only if the run is contiguous. The condition
      reads the windows and the questions only. */
  lemma {:induction false} OneLatePerSlot(g: Gate, run: seq<Ask>)
    requires g.lateSlot == None
    ensures OncePerSlot(g, run) <==> Contiguous(g.window, run)
  {
    hide LastSlot, WindowChanges, InWindow, Undisturbed;
    if !Contiguous(g.window, run) {
      var i, j, slot :| 0 <= i < j < |run| && AsksFor(g.window, run, i, slot) && AsksFor(g.window, run, j, slot)
                        && !Undisturbed(g.window, run, i, j, slot);
      DisturbedTwice(g, run, i, j, slot);
    } else {
      forall i, j | 0 <= i < j < |run| && AdmitsLate(g, run, i) && AdmitsLate(g, run, j)
        ensures run[i].question.value.next != run[j].question.value.next
      {
        LateOnce(g, run, i, j);
      }
    }
  }

  lemma {:induction false} LateOnce(g: Gate, run: seq<Ask>, i: nat, j: nat)
    requires g.lateSlot == None && Contiguous(g.window, run)
    requires i < j < |run| && AdmitsLate(g, run, i) && AdmitsLate(g, run, j)
    ensures run[i].question.Some? && run[j].question.Some?
    ensures run[i].question.value.next != run[j].question.value.next
  {
    LateMeans(g, run, i);
    LateMeans(g, run, j);
    if run[i].question.value.next == run[j].question.value.next {
      var slot := run[i].question.value.next.value;
      assert Undisturbed(g.window, run, i, j, slot);
      assert !Disturbs(g.window, run, j, j, slot);
      StaysLast(g.window, run, i, j, j, slot);
    }
  }

  /** One window and slots that never move back are contiguous. */
  lemma {:induction false} RisingSlotsAreContiguous(window: int, run: seq<Ask>)
    requires forall k :: 0 <= k < |run| ==> !WindowChanges(window, run, k)
    requires forall i, j :: 0 <= i < j < |run| && InWindow(window, run, i) && InWindow(window, run, j) ==>
               run[i].question.value.next.value <= run[j].question.value.next.value
    ensures Contiguous(window, run)
  {
    hide WindowChanges, InWindow;
    forall i, j, slot | 0 <= i < j < |run| && AsksFor(window, run, i, slot) && AsksFor(window, run, j, slot)
      ensures Undisturbed(window, run, i, j, slot)
    {
      RisingBetween(window, run, i, j, slot);
    }
  }

  lemma {:induction false} RisingBetween(window: int, run: seq<Ask>, i: nat, j: nat, slot: int)
    requires i < j < |run| && AsksFor(window, run, i, slot) && AsksFor(window, run, j, slot)
    requires forall k :: 0 <= k < |run| ==> !WindowChanges(window, run, k)
    requires forall i, j :: 0 <= i < j < |run| && InWindow(window, run, i) && InWindow(window, run, j) ==>
               run[i].question.value.next.value <= run[j].question.value.next.value
    ensures Undisturbed(window, run, i, j, slot)
  {
    hide WindowChanges;
  }

  /** When the published slot moves away and back, as an interval change can make it, the same slot is
      admitted late twice. */
  lemma {:induction false} SlotAdmittedTwice(g: Gate)
    requires g.lateSlot == None && g.window == 100
    ensures var ask := (slot: int, now: int) => Ask(100, Some(Question(true, Some(slot), now)));
            !OncePerSlot(g, [ask(1000, 950), ask(1010, 960), ask(1000, 970)])
  {
    var ask := (slot: int, now: int) => Ask(100, Some(Question(true, Some(slot), now)));
    var run := [ask(1000, 950), ask(1010, 960), ask(1000, 970)];
    forall k: nat | k <= 3 ensures WindowAfter(100, run[..k]) == 100 {
      if k > 0 { assert run[..k][k - 1] == run[k - 1]; }
    }
    assert AsksFor(100, run, 0, 1000) && AsksFor(100, run, 1, 1010) && AsksFor(100, run, 2, 1000);
    assert Disturbs(100, run, 1, 2, 1000) && !Undisturbed(100, run, 0, 2, 1000);
    OneLatePerSlot(g, run);
  }

  /** A change of the window makes the gate forget, so the same slot is admitted late again. */
  lemma {:induction false} WindowChangeReadmits(g: Gate)
    requires g.lateSlot == None && g.window == 100
    ensures var ask := (window: int, now: int) => Ask(window, Some(Question(true, Some(1000), now)));
            !OncePerSlot(g, [ask(100, 950), ask(90, 960)])
  {
    var ask := (window: int, now: int) => Ask(window, Some(Question(true, Some(1000), now)));
    var run := [ask(100, 950), ask(90, 960)];
    assert run[..1][0] == run[0] && run[..2][1] == run[1];
    assert WindowAfter(100, run[..1]) == 100 && WindowAfter(100, run[..2]) == 90;
    assert AsksFor(100, run, 0, 1000) && AsksFor(100, run, 1, 1000) && WindowChanges(100, run, 1);
    assert Disturbs(100, run, 1, 1, 1000);
    OneLatePerSlot(g, run);
  }

  // ---------- pressure accounting ----------

  datatype Accounts = Accounts(
    opportunities: nat, noRetained: nat, noNext: nat, elapsed: nat, closedSkip: nat, late: nat,
    attempts: nat, busyZero: nat, busyOne: nat, busyMore: nat,
    poolFull: nat, fullConverting: nat, fullPending: nat, fullRetained: nat,
    deferred: nat, deferredPending: nat, resampleAttempts: nat, copied: nat, poolDrops: nat, copyFailures: nat)

  function WithOpportunity(a: Accounts, r: Reason): Accounts {
    var b := a.(opportunities := a.opportunities + 1);
    match r
    case NoRetainedCandidate => b.(noRetained := b.noRetained + 1)
    case NoNextEligibleSlot => b.(noNext := b.noNext + 1)
    case ElapsedOutputSlot => b.(elapsed := b.elapsed + 1)
    case ClosedSlotSkip => b.(closedSkip := b.closedSkip + 1)
    case LateReplacement => b.(late := b.late + 1)
  }

  function WithAttempt(a: Accounts, busy: nat, capacity: nat, s: Resample.PipelineState): Accounts {
    var full := capacity != 0 && busy >= capacity;
    a.(attempts := a.attempts + 1,
       busyZero := a.busyZero + One(busy == 0), busyOne := a.busyOne + One(busy == 1),
         busyMore := a.busyMore + One(busy > 1),
       poolFull := a.poolFull + One(full), fullConverting := a.fullConverting + One(full && s.converting),
       fullPending := a.fullPending + One(full && s.pendingCapture),
         fullRetained := a.fullRetained + One(full && s.adapterRetained))
  }

  function WithDeferred(a: Accounts, s: Resample.PipelineState): Accounts {
    a.(deferred := a.deferred + 1,
       deferredPending := a.deferredPending + One(s.converting && s.pendingCapture && !s.adapterRetained))
  }

  datatype CopyResult = Copied | PoolDrop | CopyFailure

  /** The outcome the call reads off the copy's answer and the pool's counters around it. */
  function OutcomeOf(copied: bool, before: Snapshots.Gpu, after: Snapshots.Gpu): (c: Option<CopyResult>) {
    if copied then Some(Copied)
    else if after.book.pool.drops != before.book.pool.drops then Some(PoolDrop)
    else if after.failed != before.failed then Some(CopyFailure)
    else None
  }

  /** Every copy of the one copying thread has an outcome, and the right one. */
  lemma {:induction false} OutcomeIsAlwaysRead(g: Snapshots.Gpu, refused: bool, returned: seq<Snapshots.GpuEvent>,
      drawn: bool)
    requires Snapshots.CopiesOwn(g) && Snapshots.OnlyReturns(returned)
    ensures var (h, copied) := Snapshots.TryCopy(g, refused, returned, drawn);
            var full := Snapshots.Busy(g.book.pool.slots) == |g.book.pool.slots|;
            OutcomeOf(copied, g, h) ==
              Some(if refused then CopyFailure else if full then PoolDrop else if drawn then Copied else CopyFailure)
  {
    Snapshots.FailedCopyMovesOneCounter(g, refused, returned, drawn);
    hide Snapshots.TryCopy, Snapshots.Busy, Snapshots.CopiesOwn;
  }

  function WithOutcome(a: Accounts, c: CopyResult): Accounts {
    match c
    case Copied => a.(copied := a.copied + 1)
    case PoolDrop => a.(poolDrops := a.poolDrops + 1)
    case CopyFailure => a.(copyFailures := a.copyFailures + 1)
  }

  function Outcomes(a: Accounts): nat { a.copied + a.poolDrops + a.copyFailures }

  predicate Reconciled(a: Accounts) {
    && a.opportunities == a.noRetained + a.noNext + a.elapsed + a.late + a.closedSkip
    && a.opportunities == a.attempts + a.closedSkip + a.deferred
    && a.attempts == a.busyZero + a.busyOne + a.busyMore
    && a.attempts + a.resampleAttempts == Outcomes(a)
  }

  // ---------- what is still owed ----------

  /** Opportunities not yet attempted, skipped or deferred. */
  function Owed(a: Accounts): int { a.opportunities - a.attempts - a.closedSkip - a.deferred }

  /** Attempts, ordinary and resample, without an outcome yet. */
  function Open(a: Accounts): int { a.attempts + a.resampleAttempts - Outcomes(a) }

  /** Opportunities without a reason, and attempts without an occupancy. */
  function Unexplained(a: Accounts): int {
    a.opportunities - a.noRetained - a.noNext - a.elapsed - a.late - a.closedSkip
  }

  function Unplaced(a: Accounts): int { a.attempts - a.busyZero - a.busyOne - a.busyMore }

  /** Nothing but these two differences moved, by the given amounts. */
  predicate Moves(a: Accounts, b: Accounts, owed: int, open: int) {
    && Owed(b) == Owed(a) + owed && Open(b) == Open(a) + open
    && Unexplained(b) == Unexplained(a) && Unplaced(b) == Unplaced(a)
  }

  /** Nothing owed, open, unexplained or unplaced is what the accounting calls reconciled. */
  lemma ReconciledMeans(a: Accounts)
    ensures Reconciled(a) <==> Owed(a) == 0 && Open(a) == 0 && Unexplained(a) == 0 && Unplaced(a) == 0
  {
  }

  lemma AttemptMoves(a: Accounts, busy: nat, capacity: nat, s: Resample.PipelineState)
    ensures Moves(a, WithAttempt(a, busy, capacity, s), -1, 1)
  {
  }

  // ---------- one capture call ----------

  datatype Session = Session(
    gate: Gate, accounts: Accounts, copyAttempted: nat, copySubmitted: nat, skippedRetained: nat,
    lateTaken: nat, lateMissed: nat, directNoOutput: nat)

  /** What one call meets. `early` stands for the returns before admission; the bridge's answers are inputs, so
      its other threads may do anything between them; `busy` and `capacity` are read from the pool. */
  datatype Shot = Shot(
    early: bool, window: int, question: Question, taken: Resample.Opportunity, pipeline: Resample.PipelineState,
    busy: nat, capacity: nat, observed: Option<Resample.Observation>, audit: bool, direct: bool, directImage: bool,
    copy: CopyResult)

  predicate Normal(shot: Shot) { shot.taken == Resample.NormalCapture }

  predicate Defers(shot: Shot) {
    Normal(shot) && shot.observed.Some? && shot.observed.value != Resample.Ignored
  }

  predicate NoDirectOutput(shot: Shot) { shot.audit && shot.direct && !shot.directImage }

  /** The accounts with the attempt entered, its outcome still open. */
  function Entered(a: Accounts, shot: Shot): Accounts {
    if Normal(shot) then WithAttempt(a, shot.busy, shot.capacity, shot.pipeline)
    else a.(resampleAttempts := a.resampleAttempts + 1)
  }

  /** From the pool attempt on. */
  function Attempted(s: Session, shot: Shot, late: bool): Session {
    var a := Entered(s.accounts, shot);
    if NoDirectOutput(shot) then s.(accounts := a, directNoOutput := s.directNoOutput + 1)
    else
      s.(accounts := WithOutcome(a, shot.copy), copyAttempted := s.copyAttempted + 1,
         copySubmitted := s.copySubmitted + One(shot.copy == Copied),
         lateMissed := s.lateMissed + One(late && shot.copy != Copied))
  }

  function Called(s: Session, shot: Shot): Session {
    if shot.early then s
    else
      var g := Reconfigured(s.gate, shot.window);
      if !Normal(shot) then Attempted(s.(gate := g), shot, false)
      else
        var q := shot.question;
        var r := ReasonOf(g, q.retained, q.next, q.now);
        var t := s.(gate := Evaluated(g, q.retained, q.next, q.now), accounts := WithOpportunity(s.accounts, r),
                    lateTaken := s.lateTaken + One(r == LateReplacement));
        if r == ClosedSlotSkip then t.(skippedRetained := t.skippedRetained + 1)
        else if Defers(shot) then t.(accounts := WithDeferred(t.accounts, shot.pipeline))
        else Attempted(t, shot, r == LateReplacement)
  }

  function CallAll(s: Session, shots: seq<Shot>): Session
    decreases |shots|
  {
    if shots == [] then s else CallAll(Called(s, shots[0]), shots[1..])
  }

  /** The balance with `owed` admitted opportunities not yet attempted or deferred. */
  predicate Owing(s: Session, owed: nat) {
    var a := s.accounts;
    && a.opportunities == a.noRetained + a.noNext + a.elapsed + a.late + a.closedSkip
    && a.opportunities == a.attempts + a.closedSkip + a.deferred + owed
    && a.attempts == a.busyZero + a.busyOne + a.busyMore
    && a.attempts + a.resampleAttempts == Outcomes(a) + s.directNoOutput
    && s.copyAttempted == Outcomes(a) && s.copySubmitted == a.copied && s.skippedRetained == a.closedSkip
      && s.lateTaken == a.late
    && a.fullConverting <= a.poolFull <= a.attempts && a.deferredPending <= a.deferred && s.lateMissed <= s.lateTaken
  }

  /** What the run of calls asks of the gate. */
  function Asks(shots: seq<Shot>): seq<Ask> {
    if shots == [] then []
    else
      var last := shots[|shots| - 1];
      Asks(shots[..|shots| - 1])
      + if last.early then [] else [Ask(last.window, if Normal(last) then Some(last.question) else None)]
  }

  /** Over any calls the gate goes through exactly those asks, so `OneLatePerSlot` speaks about them. */
  lemma {:induction false} CallsAskTheGate(s: Session, shots: seq<Shot>)
    ensures CallAll(s, shots).gate == GateAfter(s.gate, Asks(shots))
    decreases |shots|
  {
    if shots != [] {
      var front, last := shots[..|shots| - 1], shots[|shots| - 1];
      CallLast(s, shots);
      CallsAskTheGate(s, front);
      CallGate(CallAll(s, front), last);
      if !last.early {
        GateAppend(s.gate, Asks(front), Ask(last.window, if Normal(last) then Some(last.question) else None));
      } else {
        assert Asks(shots) == Asks(front);
      }
      hide Called, Asked;
    }
  }

  lemma GateAppend(g: Gate, run: seq<Ask>, a: Ask)
    ensures GateAfter(g, run + [a]) == Asked(GateAfter(g, run), a)
  {
    assert (run + [a])[..|run|] == run;
  }

  lemma CallGate(s: Session, shot: Shot)
    ensures Called(s, shot).gate ==
            if shot.early then s.gate
            else Asked(s.gate, Ask(shot.window, if Normal(shot) then Some(shot.question) else None))
  {
    hide WithOpportunity, WithDeferred, Evaluated, Reconfigured, ReasonOf;
  }

  /** The exact balance between calls: only direct returns without output miss their copy outcome. */
  predicate Balanced(s: Session) { Owing(s, 0) }

  lemma AttemptIsEntered(a: Accounts, shot: Shot)
    ensures var b := Entered(a, shot);
            && b.attempts + b.resampleAttempts == a.attempts + a.resampleAttempts + 1
            && b.attempts == a.attempts + One(Normal(shot))
            && b.busyZero + b.busyOne + b.busyMore == a.busyZero + a.busyOne + a.busyMore + One(Normal(shot))
            && (a.fullConverting <= a.poolFull <= a.attempts ==> b.fullConverting <= b.poolFull <= b.attempts)
            && b.copied == a.copied && b.poolDrops == a.poolDrops && b.copyFailures == a.copyFailures
            && b.opportunities == a.opportunities && b.noRetained == a.noRetained && b.noNext == a.noNext
            && b.elapsed == a.elapsed && b.late == a.late && b.closedSkip == a.closedSkip
            && b.deferred == a.deferred && b.deferredPending == a.deferredPending
  {
  }

  lemma AttemptBalances(s: Session, shot: Shot, late: bool)
    requires Owing(s, One(Normal(shot))) && (late ==> s.lateMissed < s.lateTaken)
    ensures Balanced(Attempted(s, shot, late))
  {
    AttemptIsEntered(s.accounts, shot);
    hide Entered;
  }

  lemma OpportunityBalances(s: Session, g: Gate, r: Reason)
    requires Balanced(s)
    ensures var t := s.(gate := g, accounts := WithOpportunity(s.accounts, r),
      lateTaken := s.lateTaken + One(r == LateReplacement));
            && (r != ClosedSlotSkip ==> Owing(t, 1) && (r == LateReplacement ==> t.lateMissed < t.lateTaken))
            && (r == ClosedSlotSkip ==> Balanced(t.(skippedRetained := t.skippedRetained + 1)))
  {
  }

  lemma DeferralBalances(s: Session, p: Resample.PipelineState)
    requires Owing(s, 1)
    ensures Balanced(s.(accounts := WithDeferred(s.accounts, p)))
  {
  }

  lemma CallBalances(s: Session, shot: Shot)
    requires Balanced(s)
    ensures Balanced(Called(s, shot))
  {
    hide Owing, Attempted, WithOpportunity, WithDeferred;
    if !shot.early {
      var g := Reconfigured(s.gate, shot.window);
      var q := shot.question;
      if !Normal(shot) {
        GateIsApart(s, g, 0);
        AttemptBalances(s.(gate := g), shot, false);
      } else {
        var r := ReasonOf(g, q.retained, q.next, q.now);
        OpportunityBalances(s, Evaluated(g, q.retained, q.next, q.now), r);
        var t := s.(gate := Evaluated(g, q.retained, q.next, q.now), accounts := WithOpportunity(s.accounts, r),
                    lateTaken := s.lateTaken + One(r == LateReplacement));
        if r != ClosedSlotSkip {
          if Defers(shot) {
            DeferralBalances(t, shot.pipeline);
          } else {
            AttemptBalances(t, shot, r == LateReplacement);
          }
        }
      }
    }
  }

  lemma GateIsApart(s: Session, g: Gate, owed: nat)
    ensures Owing(s.(gate := g), owed) == Owing(s, owed)
  {
  }

  /** Over any number of calls the accounting reconciles if and only if no attempt ended in the direct source's
      return without output; otherwise it is short of exactly that many outcomes. */
  lemma {:induction false} ReconcilesExactly(s: Session, shots: seq<Shot>)
    requires Balanced(s)
    ensures var t := CallAll(s, shots);
            && Balanced(t) && (Reconciled(t.accounts) <==> t.directNoOutput == 0)
            && t.accounts.attempts + t.accounts.resampleAttempts - Outcomes(t.accounts) == t.directNoOutput
    decreases |shots|
  {
    if shots != [] {
      CallBalances(s, shots[0]);
      hide Called;
      ReconcilesExactly(Called(s, shots[0]), shots[1..]);
    }
  }

  /** The calls that return there: past admission and the full-pool seam with a direct source and no image. */
  predicate EndsDirect(g: Gate, shot: Shot) {
    && !shot.early && NoDirectOutput(shot)
    && (Normal(shot) ==>
          ReasonOf(Reconfigured(g, shot.window), shot.question.retained, shot.question.next, shot.question.now)
            != ClosedSlotSkip
          && !Defers(shot))
  }

  lemma {:induction false} ShortfallIsDirectReturns(s: Session, shots: seq<Shot>)
    ensures CallAll(s, shots).directNoOutput == s.directNoOutput <==>
            forall i :: 0 <= i < |shots| ==> !EndsDirect(CallAll(s, shots[..i]).gate, shots[i])
    ensures CallAll(s, shots).directNoOutput >= s.directNoOutput
    decreases |shots|
  {
    if shots != [] {
      var last := |shots| - 1;
      CallLast(s, shots);
      ShortfallIsDirectReturns(s, shots[..last]);
      assert forall i :: 0 <= i < last ==> shots[..last][..i] == shots[..i];
    }
  }

  /** The call reaches an ordinary pool attempt. */
  predicate AttemptsNormally(g: Gate, shot: Shot) {
    && !shot.early && Normal(shot) && !Defers(shot)
    && ReasonOf(Reconfigured(g, shot.window), shot.question.retained, shot.question.next, shot.question.now)
         != ClosedSlotSkip
  }

  /** What one call adds: each attempt under its own occupancy, its outcome under what the copy did. */
  predicate Adds(a: Accounts, b: Accounts, shot: Shot, normal: bool, resample: bool) {
    var copies := (normal || resample) && !NoDirectOutput(shot);
    && b.attempts == a.attempts + One(normal) && b.resampleAttempts == a.resampleAttempts + One(resample)
    && b.busyZero == a.busyZero + One(normal && shot.busy == 0)
    && b.busyOne == a.busyOne + One(normal && shot.busy == 1)
    && b.busyMore == a.busyMore + One(normal && shot.busy >= 2)
    && b.poolFull == a.poolFull + One(normal && 0 < shot.capacity <= shot.busy)
    && b.copied == a.copied + One(copies && shot.copy == Copied)
    && b.poolDrops == a.poolDrops + One(copies && shot.copy == PoolDrop)
    && b.copyFailures == a.copyFailures + One(copies && shot.copy == CopyFailure)
  }

  lemma AttemptAdds(s: Session, shot: Shot, late: bool)
    ensures Adds(s.accounts, Attempted(s, shot, late).accounts, shot, Normal(shot), !Normal(shot))
  {
  }

  lemma OpportunityAdds(a: Accounts, b: Accounts, r: Reason, shot: Shot, normal: bool)
    ensures Adds(WithOpportunity(a, r), b, shot, normal, false) == Adds(a, b, shot, normal, false)
    ensures Adds(a, WithOpportunity(a, r), shot, false, false)
    ensures Adds(a, WithDeferred(WithOpportunity(a, r), shot.pipeline), shot, false, false)
  {
  }

  /** One call's share in attempts, occupancy, full-pool, resample and outcome counters. */
  lemma CallIsAttributed(s: Session, shot: Shot)
    ensures Adds(s.accounts, Called(s, shot).accounts, shot, AttemptsNormally(s.gate, shot),
                 !shot.early && !Normal(shot))
  {
    if shot.early {
      assert Called(s, shot) == s;
    } else {
      var g := Reconfigured(s.gate, shot.window);
      var q := shot.question;
      if !Normal(shot) {
        AttemptAdds(s.(gate := g), shot, false);
      } else {
        var r := ReasonOf(g, q.retained, q.next, q.now);
        var t := s.(gate := Evaluated(g, q.retained, q.next, q.now), accounts := WithOpportunity(s.accounts, r),
                    lateTaken := s.lateTaken + One(r == LateReplacement));
        hide Evaluated, Reconfigured, ReasonOf, WithOpportunity, WithDeferred, Attempted, Adds;
        AttemptAdds(t, shot, r == LateReplacement);
        OpportunityAdds(s.accounts, Called(s, shot).accounts, r, shot, true);
      }
    }
  }

  lemma {:induction false} CallLast(s: Session, shots: seq<Shot>)
    requires shots != []
    ensures CallAll(s, shots) == Called(CallAll(s, shots[..|shots| - 1]), shots[|shots| - 1])
    decreases |shots|
  {
    hide Called;
    if |shots| == 1 {
      assert shots[..0] == [];
      assert shots[1..] == [];
    } else {
      CallLast(Called(s, shots[0]), shots[1..]);
      assert shots[1..][..|shots| - 2] == shots[1..|shots| - 1] == shots[..|shots| - 1][1..];
    }
  }

  // ---------- the objects ----------

  class CaptureAdmissionPolicy {
    var window: int
    var lateSampledSlot: Option<int>
    var lastReason: Reason
    var allowed: nat
    var skipped: nat
    var late: nat

    function Abs(): Gate
      reads this
    {
      Gate(window, lateSampledSlot, lastReason, allowed, skipped, late)
    }

    constructor (window: int)
      ensures Abs() == Gate(if ValidWindow(window) then window else 100, None, NoRetainedCandidate, 0, 0, 0)
    {
      this.window := if ValidWindow(window) then window else 100;
      lateSampledSlot, lastReason, allowed, skipped, late := None, NoRetainedCandidate, 0, 0, 0;
    }

    method Reconfigure(window: int) returns (changed: bool)
      modifies this
      ensures Abs() == Reconfigured(old(Abs()), window)
    {
      if !ValidWindow(window) || this.window == window { return false; }
      this.window := window;
      lateSampledSlot := None;
      return true;
    }

    method Evaluate(retained: bool, next: Option<int>, now: int) returns (d: Admission)
      modifies this
      ensures Abs() == Evaluated(old(Abs()), retained, next, now)
        && d == Admits(ReasonOf(old(Abs()), retained, next, now))
      ensures lastReason == ReasonOf(old(Abs()), retained, next, now)
    {
      if !retained {
        lastReason := NoRetainedCandidate;
        allowed := allowed + 1;
        return Capture;
      }
      if next.None? {
        lastReason := NoNextEligibleSlot;
        allowed := allowed + 1;
        return Capture;
      }
      if now >= next.value {
        lastReason := ElapsedOutputSlot;
        allowed := allowed + 1;
        return Capture;
      }
      if next.value - now <= window && lateSampledSlot != next {
        lateSampledSlot := next;
        lastReason := LateReplacement;
        late := late + 1;
        return CaptureLate;
      }
      lastReason := ClosedSlotSkip;
      skipped := skipped + 1;
      return SkipRetained;
    }
  }

  class CapturePressureAccounting {
    var diagnostics: Accounts

    constructor ()
      ensures diagnostics == Accounts(0, 0, 0, 0, 0, 0, 0, 0, 0, 0, 0, 0, 0, 0, 0, 0, 0, 0, 0, 0)
    {
      diagnostics := Accounts(0, 0, 0, 0, 0, 0, 0, 0, 0, 0, 0, 0, 0, 0, 0, 0, 0, 0, 0, 0);
    }

    method RecordOpportunity(r: Reason)
      modifies this
      ensures diagnostics == WithOpportunity(old(diagnostics), r)
      ensures Moves(old(diagnostics), diagnostics, One(r != ClosedSlotSkip), 0)
    {
      var d := diagnostics.(opportunities := diagnostics.opportunities + 1);
      match r
      case NoRetainedCandidate => diagnostics := d.(noRetained := d.noRetained + 1);
      case NoNextEligibleSlot => diagnostics := d.(noNext := d.noNext + 1);
      case ElapsedOutputSlot => diagnostics := d.(elapsed := d.elapsed + 1);
      case ClosedSlotSkip => diagnostics := d.(closedSkip := d.closedSkip + 1);
      case LateReplacement => diagnostics := d.(late := d.late + 1);
    }

    method RecordAttempt(busy: nat, capacity: nat, s: Resample.PipelineState)
      modifies this
      ensures diagnostics == WithAttempt(old(diagnostics), busy, capacity, s)
      ensures Moves(old(diagnostics), diagnostics, -1, 1)
    {
      AttemptMoves(diagnostics, busy, capacity, s);
      hide Moves;
      var d := diagnostics.(attempts := diagnostics.attempts + 1);
      if busy == 0 {
        d := d.(busyZero := d.busyZero + 1);
      } else if busy == 1 {
        d := d.(busyOne := d.busyOne + 1);
      } else {
        d := d.(busyMore := d.busyMore + 1);
      }
      diagnostics := d;
      if capacity == 0 || busy < capacity { return; }
      d := d.(poolFull := d.poolFull + 1);
      if s.converting { d := d.(fullConverting := d.fullConverting + 1); }
      if s.pendingCapture { d := d.(fullPending := d.fullPending + 1); }
      if s.adapterRetained { d := d.(fullRetained := d.fullRetained + 1); }
      diagnostics := d;
    }

    method RecordFullPoolDeferred(s: Resample.PipelineState)
      modifies this
      ensures diagnostics == WithDeferred(old(diagnostics), s)
      ensures Moves(old(diagnostics), diagnostics, -1, 0)
    {
      diagnostics := diagnostics.(deferred := diagnostics.deferred + 1);
      if s.converting && s.pendingCapture && !s.adapterRetained {
        diagnostics := diagnostics.(deferredPending := diagnostics.deferredPending + 1);
      }
    }

    method RecordResampleAttempt()
      modifies this
      ensures diagnostics == old(diagnostics).(resampleAttempts := old(diagnostics).resampleAttempts + 1)
      ensures Moves(old(diagnostics), diagnostics, 0, 1)
    {
      diagnostics := diagnostics.(resampleAttempts := diagnostics.resampleAttempts + 1);
    }

    method RecordOutcome(c: CopyResult)
      modifies this
      ensures diagnostics == WithOutcome(old(diagnostics), c)
      ensures Moves(old(diagnostics), diagnostics, 0, -1)
    {
      match c
      case Copied => diagnostics := diagnostics.(copied := diagnostics.copied + 1);
      case PoolDrop => diagnostics := diagnostics.(poolDrops := diagnostics.poolDrops + 1);
      case CopyFailure => diagnostics := diagnostics.(copyFailures := diagnostics.copyFailures + 1);
    }

    method HasReconciledAccounting() returns (ok: bool)
      ensures ok == Reconciled(diagnostics)
      ensures ok <==>
        Owed(diagnostics) == 0 && Open(diagnostics) == 0 && Unexplained(diagnostics) == 0 && Unplaced(diagnostics) == 0
    {
      var d := diagnostics;
      var admissions := d.noRetained + d.noNext + d.elapsed + d.late;
      var reasons := admissions + d.closedSkip;
      var occupancy := d.busyZero + d.busyOne + d.busyMore;
      var outcomes := d.copied + d.poolDrops + d.copyFailures;
      return d.opportunities == reasons && d.opportunities == d.attempts + d.closedSkip + d.deferred
        && d.attempts == occupancy && d.attempts + d.resampleAttempts == outcomes;
    }
  }

  class RenderSurfaceCaptureSession {
    const admission: CaptureAdmissionPolicy
    const accounting: CapturePressureAccounting
    var copyAttempted: nat
    var copySubmitted: nat
    var skippedRetained: nat
    var lateTaken: nat
    var lateMissed: nat
    var directNoOutput: nat

    ghost function Abs(): Session
      reads this, admission, accounting
    {
      Session(admission.Abs(), accounting.diagnostics, copyAttempted, copySubmitted, skippedRetained, lateTaken,
        lateMissed, directNoOutput)
    }

    constructor ()
      ensures fresh(admission) && fresh(accounting) && Balanced(Abs())
    {
      admission := new CaptureAdmissionPolicy(100);
      accounting := new CapturePressureAccounting();
      copyAttempted, copySubmitted, skippedRetained, lateTaken, lateMissed, directNoOutput := 0, 0, 0, 0, 0, 0;
    }

    method CaptureM3(shot: Shot)
      modifies this, admission, accounting
      ensures Abs() == Called(old(Abs()), shot)
      ensures old(Balanced(Abs())) ==> Balanced(Abs())
    {
      CallBalancesIf(Abs(), shot);
      hide Moves, Owing, WithOpportunity, Evaluated, ReasonOf, Attempted, WithDeferred, Reconfigured;
      if shot.early { return; }
      var changed := admission.Reconfigure(shot.window);
      var late := false;
      if shot.taken == Resample.NormalCapture {
        var q := shot.question;
        var decision := admission.Evaluate(q.retained, q.next, q.now);
        accounting.RecordOpportunity(admission.lastReason);
        if decision == SkipRetained {
          skippedRetained := skippedRetained + 1;
          return;
        }
        late := decision == CaptureLate;
        if late { lateTaken := lateTaken + 1; }
        if shot.observed.Some? && shot.observed.value != Resample.Ignored {
          accounting.RecordFullPoolDeferred(shot.pipeline);
          return;
        }
      }
      Attempt(shot, late);
    }

    method Attempt(shot: Shot, late: bool)
      modifies this, accounting
      ensures Abs() == Attempted(old(Abs()), shot, late)
    {
      hide WithAttempt, Moves;
      if shot.taken == Resample.NormalCapture {
        accounting.RecordAttempt(shot.busy, shot.capacity, shot.pipeline);
      } else {
        accounting.RecordResampleAttempt();
      }
      if shot.audit && shot.direct && !shot.directImage {
        directNoOutput := directNoOutput + 1;
        return;
      }
      copyAttempted := copyAttempted + 1;
      accounting.RecordOutcome(shot.copy);
      if shot.copy != Copied {
        if late { lateMissed := lateMissed + 1; }
        return;
      }
      copySubmitted := copySubmitted + 1;
    }
  }

  lemma CallBalancesIf(s: Session, shot: Shot)
    ensures Balanced(s) ==> Balanced(Called(s, shot))
  {
    if Balanced(s) { CallBalances(s, shot); }
  }
}
