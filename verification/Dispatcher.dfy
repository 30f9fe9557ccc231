/** The one-shot handoff from a worker to the main thread, under any executor: tasks may run late, twice,
    or after a refusal, and Stop may come anywhere. */
module Dispatcher {
  import opened Bits
  import opened Wrappers

  datatype Counts = Counts(
    requested: nat, posted: nat, coalesced: nat, rejected: nat, dispatched: nat, cancelled: nat, stoppedRequests: nat)

  datatype Answer = Posted | Coalesced | Rejected | Stopped

  datatype Core = Core(canPost: bool, stopped: bool, outstanding: bool, sequence: nat, counts: Counts)

  /** First section of a request: an answer, or the sequence to post. */
  function AnswerOf(c: Core): Option<Answer> {
    if c.stopped then Some(Stopped)
    else if c.outstanding then Some(Coalesced)
    else if !c.canPost then Some(Rejected)
    else None
  }

  function Requested(c: Core): Core {
    var n := c.counts.(requested := c.counts.requested + 1);
    match AnswerOf(c)
    case Some(Stopped) => c.(counts := n.(stoppedRequests := n.stoppedRequests + 1))
    case Some(Coalesced) => c.(counts := n.(coalesced := n.coalesced + 1))
    case Some(Rejected) => c.(counts := n.(rejected := n.rejected + 1))
    case _ => c.(counts := n, outstanding := true, sequence := c.sequence + 1)
  }

  /** Second section, after the executor's answer. */
  function PostReturned(c: Core, sequence: nat, accepted: bool): Core {
    if accepted then c.(counts := c.counts.(posted := c.counts.posted + 1))
    else if c.sequence == sequence && c.outstanding then
      c.(outstanding := false, counts := c.counts.(rejected := c.counts.rejected + 1))
    else c
  }

  function StoppedBy(c: Core): Core {
    if c.stopped then c
    else
      c.(stopped := true, outstanding := false,
         counts := c.counts.(cancelled := c.counts.cancelled + if c.outstanding then 1 else 0))
  }

  /** The posted task commits to the action. */
  predicate Commits(c: Core, sequence: nat) { !c.stopped && c.outstanding && c.sequence == sequence }

  function TaskRun(c: Core, sequence: nat): Core {
    if Commits(c, sequence)
    then c.(outstanding := false, counts := c.counts.(dispatched := c.counts.dispatched + 1))
    else c
  }

  // ---------- runs ----------

  /** `posting` are requests between their sections, `runs` the sequences whose task committed, in order, and
      `postRejections` the rejections counted after posting. */
  datatype State = State(core: Core, posting: set<nat>, runs: seq<nat>, postRejections: nat)

  datatype Event = Request | PostReturn(sequence: nat, accepted: bool) | Stop | RunTask(sequence: nat)

  predicate Enabled(s: State, e: Event) {
    match e
    case PostReturn(n, _) => n in s.posting
    case RunTask(n) => 1 <= n <= s.core.sequence
    case _ => true
  }

  function Step(s: State, e: Event): State
    requires Enabled(s, e)
  {
    match e
    case Request =>
      var c := Requested(s.core);
      s.(core := c, posting := if AnswerOf(s.core).None? then s.posting + {c.sequence} else s.posting)
    case PostReturn(n, accepted) =>
      var c := PostReturned(s.core, n, accepted);
      s.(core := c, posting := s.posting - {n},
         postRejections := s.postRejections + c.counts.rejected - s.core.counts.rejected)
    case Stop => s.(core := StoppedBy(s.core))
    case RunTask(n) => s.(core := TaskRun(s.core, n), runs := if Commits(s.core, n) then s.runs + [n] else s.runs)
  }

  predicate CanRun(s: State, events: seq<Event>)
    decreases |events|
  {
    events == [] || (Enabled(s, events[0]) && CanRun(Step(s, events[0]), events[1..]))
  }

  function Run(s: State, events: seq<Event>): State
    requires CanRun(s, events)
    decreases |events|
  {
    if events == [] then s else Run(Step(s, events[0]), events[1..])
  }

  /** Every issued sequence has one fate and every request one answer. */
  ghost predicate Counted(s: State) {
    var c := s.core;
    && c.sequence == c.counts.dispatched + c.counts.cancelled + s.postRejections + One(c.outstanding)
    && c.counts.requested == c.counts.stoppedRequests + c.counts.coalesced + (c.counts.rejected - s.postRejections)
                            + c.sequence
    && s.postRejections <= c.counts.rejected && (c.canPost ==> s.postRejections == c.counts.rejected)
    && c.counts.posted + |s.posting| <= c.sequence
    && c.counts.dispatched == |s.runs| && c.counts.cancelled <= One(c.stopped)
    && (c.stopped ==> !c.outstanding)
    && (forall n :: n in s.posting ==> 1 <= n <= c.sequence)
  }

  /** Committed tasks strictly rise, so none commits twice. */
  ghost predicate RunsRise(runs: seq<nat>, c: Core) {
    && (forall i :: 0 <= i < |runs| ==> 1 <= runs[i] <= c.sequence)
    && (c.outstanding ==> forall i :: 0 <= i < |runs| ==> runs[i] < c.sequence)
    && (forall i, j :: 0 <= i < j < |runs| ==> runs[i] < runs[j])
  }

  ghost predicate Conserved(s: State) { Counted(s) && RunsRise(s.runs, s.core) }

  lemma {:induction false} StepCounts(s: State, e: Event)
    requires Counted(s) && Enabled(s, e)
    ensures Counted(Step(s, e))
  {
    hide Requested, PostReturned;
    match e
    case Request => RequestCounts(s);
    case PostReturn(n, accepted) => ReturnCounts(s, n, accepted);
    case _ =>
  }

  lemma RequestCounts(s: State)
    requires Counted(s)
    ensures Counted(Step(s, Request))
  {
    assert s.core.sequence + 1 !in s.posting;
  }

  lemma ReturnCounts(s: State, n: nat, accepted: bool)
    requires Counted(s) && n in s.posting
    ensures Counted(Step(s, PostReturn(n, accepted)))
  {
    assert s.posting == (s.posting - {n}) + {n};
  }

  lemma {:induction false} StepRises(s: State, e: Event)
    requires RunsRise(s.runs, s.core) && Enabled(s, e)
    ensures RunsRise(Step(s, e).runs, Step(s, e).core)
  {
  }

  lemma {:induction false} StepConserves(s: State, e: Event)
    requires Conserved(s) && Enabled(s, e)
    ensures Conserved(Step(s, e))
  {
    hide Counted, RunsRise, Step, Enabled;
    StepCounts(s, e);
    StepRises(s, e);
  }

  /** issued = dispatched + cancelled + rejected after posting + one if outstanding, for any schedule. */
  lemma {:induction false} RunConserves(s: State, events: seq<Event>)
    requires Conserved(s) && CanRun(s, events)
    ensures Conserved(Run(s, events))
    decreases |events|
  {
    hide Conserved, Step, Enabled;
    if events != [] {
      StepConserves(s, events[0]);
      RunConserves(Step(s, events[0]), events[1..]);
    }
  }

  lemma FreshConserves(s: State)
    requires s.core == Core(s.core.canPost, false, false, 0, Counts(0, 0, 0, 0, 0, 0, 0))
    requires |s.posting| == |s.runs| == s.postRejections == 0
    ensures Conserved(s)
  {
    assert forall n :: n in s.posting ==> s.posting != {};
  }

  /** A stale task, or any task after Stop, changes nothing. */
  lemma StaleTaskIsInert(s: State, n: nat)
    requires Enabled(s, RunTask(n))
    ensures Step(s, RunTask(n)) == s <==> s.core.stopped || !s.core.outstanding || n < s.core.sequence
  {
  }

  /** After Stop no task ever commits and no sequence is ever issued. */
  lemma {:induction false} NothingAfterStop(s: State, events: seq<Event>)
    requires s.core.stopped && CanRun(s, events)
    ensures var t := Run(s, events); t.core.stopped && t.runs == s.runs && t.core.sequence == s.core.sequence
    decreases |events|
  {
    if events != [] { NothingAfterStop(Step(s, events[0]), events[1..]); }
  }

  predicate Spares(e: Event, sequence: nat) {
    !e.Stop? && e != RunTask(sequence) && e != PostReturn(sequence, false)
  }

  /** Unless stopped, refused or already run, the outstanding sequence's task still commits when it is run:
      coalesced requests are not lost. */
  lemma {:induction false} OutstandingStillRuns(s: State, events: seq<Event>)
    requires s.core.outstanding && !s.core.stopped && CanRun(s, events)
    requires forall i :: 0 <= i < |events| ==> Spares(events[i], s.core.sequence)
    ensures var t := Run(s, events); Commits(t.core, s.core.sequence) && t.runs == s.runs
    decreases |events|
  {
    if events != [] {
      var t, rest := Step(s, events[0]), events[1..];
      assert Spares(events[0], s.core.sequence);
      assert forall i :: 0 <= i < |rest| ==> rest[i] == events[i + 1];
      OutstandingStillRuns(t, rest);
    }
  }

  // ---------- the dispatcher as an object ----------

  class MainThreadResampleDispatcher {
    const canPost: bool
    var stopped: bool
    var outstanding: bool
    var sequence: nat
    var counts: Counts

    function Abs(): Core
      reads this
    {
      Core(canPost, stopped, outstanding, sequence, counts)
    }

    constructor (canPost: bool)
      ensures Abs() == Core(canPost, false, false, 0, Counts(0, 0, 0, 0, 0, 0, 0))
    {
      this.canPost := canPost;
      stopped, outstanding, sequence, counts := false, false, 0, Counts(0, 0, 0, 0, 0, 0, 0);
    }

    /** The section before posting; None means the returned sequence is posted. */
    method BeginRequest() returns (answer: Option<Answer>, issued: nat)
      modifies this
      ensures Abs() == Requested(old(Abs())) && answer == AnswerOf(old(Abs()))
      ensures answer.None? ==> issued == sequence
    {
      counts := counts.(requested := counts.requested + 1);
      if stopped {
        counts := counts.(stoppedRequests := counts.stoppedRequests + 1);
        return Some(Stopped), 0;
      }
      if outstanding {
        counts := counts.(coalesced := counts.coalesced + 1);
        return Some(Coalesced), 0;
      }
      if !canPost {
        counts := counts.(rejected := counts.rejected + 1);
        return Some(Rejected), 0;
      }
      outstanding := true;
      sequence := sequence + 1;
      return None, sequence;
    }

    /** The section after the executor answered. */
    method EndRequest(issued: nat, accepted: bool) returns (answer: Answer)
      modifies this
      ensures Abs() == PostReturned(old(Abs()), issued, accepted) && answer == if accepted then Posted else Rejected
    {
      if !accepted {
        if sequence == issued && outstanding {
          outstanding := false;
          counts := counts.(rejected := counts.rejected + 1);
        }
        return Rejected;
      }
      counts := counts.(posted := counts.posted + 1);
      return Posted;
    }

    method StopDispatch()
      modifies this
      ensures Abs() == StoppedBy(old(Abs()))
    {
      if stopped { return; }
      stopped := true;
      if outstanding {
        outstanding := false;
        counts := counts.(cancelled := counts.cancelled + 1);
      }
    }

    method RunPostedTask(issued: nat) returns (act: bool)
      modifies this
      ensures Abs() == TaskRun(old(Abs()), issued) && act == Commits(old(Abs()), issued)
    {
      if stopped || !outstanding || sequence != issued { return false; }
      outstanding := false;
      counts := counts.(dispatched := counts.dispatched + 1);
      return true;
    }
  }
}
