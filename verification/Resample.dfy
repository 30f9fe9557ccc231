/** The full-pool resample obligation: the policy, the bridge that guards it, and the capture seam, over any
    interleaving of the capture thread, the conversion worker and cancels. */
module Resample {
  import opened Bits

  datatype PipelineState = PipelineState(converting: bool, pendingCapture: bool, adapterRetained: bool)
  datatype Observation = Ignored | Created | Coalesced
  datatype Release = NoRelease | DispatchResample | DispatchExpiryFallback
  datatype Opportunity = NormalCapture | ResampleCapture | ExpiryFallbackCapture

  datatype Counts = Counts(
    created: nat, coalesced: nat, dispatched: nat, expiryFallback: nat, fulfilled: nat, copyFailures: nat,
      cancelled: nat)

  datatype Policy = Policy(
    expiry: int, outstanding: bool, awaiting: bool, awaitingExpiry: bool, deadline: int, counts: Counts)

  /** Milliseconds. */
  predicate ValidExpiry(ms: int) { 100 <= ms <= 2000 }

  const DEFAULT_EXPIRY := 500

  function NewPolicy(expiry: int): Policy {
    Policy(if ValidExpiry(expiry) then expiry else DEFAULT_EXPIRY, false, false, false, 0, Counts(0, 0, 0, 0, 0, 0, 0))
  }

  predicate Qualifies(full: bool, s: PipelineState) { full && s.converting && s.pendingCapture && !s.adapterRetained }

  function ObservationOf(p: Policy, full: bool, s: PipelineState): Observation {
    if !Qualifies(full, s) then Ignored else if p.outstanding || p.awaiting then Coalesced else Created
  }

  function Observed(p: Policy, full: bool, s: PipelineState, now: int): Policy {
    match ObservationOf(p, full, s)
    case Ignored => p
    case Coalesced => p.(counts := p.counts.(coalesced := p.counts.coalesced + 1))
    case Created => p.(outstanding := true, deadline := now + p.expiry,
      counts := p.counts.(created := p.counts.created + 1))
  }

  function ReleaseOf(p: Policy, now: int): Release {
    if !p.outstanding then NoRelease else if now >= p.deadline then DispatchExpiryFallback else DispatchResample
  }

  function Released(p: Policy, now: int): Policy {
    match ReleaseOf(p, now)
    case NoRelease => p
    case DispatchExpiryFallback =>
      p.(outstanding := false, awaiting := true, awaitingExpiry := true,
         counts := p.counts.(expiryFallback := p.counts.expiryFallback + 1))
    case DispatchResample =>
      p.(outstanding := false, awaiting := true, awaitingExpiry := false,
         counts := p.counts.(dispatched := p.counts.dispatched + 1))
  }

  function OpportunityOf(p: Policy): Opportunity {
    if !p.awaiting then NormalCapture else if p.awaitingExpiry then ExpiryFallbackCapture else ResampleCapture
  }

  function Taken(p: Policy): Policy { p.(awaiting := false) }

  function Recorded(p: Policy, o: Opportunity, copied: bool): Policy {
    if o == NormalCapture then p
    else
      p.(awaitingExpiry := false,
         counts := if copied then p.counts.(fulfilled := p.counts.fulfilled + 1)
                   else p.counts.(copyFailures := p.counts.copyFailures + 1))
  }

  function Cancelled(p: Policy): Policy {
    p.(outstanding := false, awaiting := false, awaitingExpiry := false,
       counts := p.counts.(cancelled := p.counts.cancelled + if p.outstanding || p.awaiting then 1 else 0))
  }

  function Reconfigured(p: Policy, expiry: int): Policy {
    if !ValidExpiry(expiry) || expiry == p.expiry then p else Cancelled(p.(expiry := expiry))
  }

  // ---------- runs ----------

  /** `taken` are opportunities a capture call holds and has not yet recorded, in order; `abandoned` counts those
      whose call returned without recording; `requests` the releases that are asking for a composition outside
      the lock; `late` says whether the present obligation was released at or after its deadline. */
  datatype State = State(policy: Policy, taken: seq<Opportunity>, abandoned: nat, requests: nat, late: bool)

  datatype Event =
    | Observe(full: bool, state: PipelineState, now: int)
    | ReleaseSlot(now: int)
    | RequestReturn(ok: bool)
    | Take
    | Record(copied: bool)
    | Abandon
    | Cancel
    | Reconfigure(expiry: int)

  predicate Enabled(s: State, e: Event) {
    match e
    case RequestReturn(_) => s.requests > 0
    case Record(_) => s.taken != []
    case Abandon => s.taken != []
    case _ => true
  }

  function Step(s: State, e: Event): State
    requires Enabled(s, e)
  {
    var p := s.policy;
    match e
    case Observe(full, state, now) => s.(policy := Observed(p, full, state, now))
    case ReleaseSlot(now) =>
      var r := ReleaseOf(p, now);
      State(Released(p, now), s.taken, s.abandoned, s.requests + (if r == NoRelease then 0 else 1),
            if r == NoRelease then s.late else now >= p.deadline)
    case RequestReturn(ok) => State(if ok then p else Cancelled(p), s.taken, s.abandoned, s.requests - 1, s.late)
    case Take =>
      var o := OpportunityOf(p);
      s.(policy := Taken(p), taken := if o == NormalCapture then s.taken else s.taken + [o])
    case Record(copied) => s.(policy := Recorded(p, s.taken[0], copied), taken := s.taken[1..])
    case Abandon => s.(taken := s.taken[1..], abandoned := s.abandoned + 1)
    case Cancel => s.(policy := Cancelled(p))
    case Reconfigure(expiry) => s.(policy := Reconfigured(p, expiry))
  }

  predicate CanRun(s: State, events: seq<Event>)
    decreases |events|
  {
    events == [] || (Enabled(s, events[0]) && CanRun(Step(s, events[0]), events[1..]))
  }

  function Run(s: State, events: seq<Event>): State
    requires CanRun(s, events)
    decreases |events|
  {
    if events == [] then s else Run(Step(s, events[0]), events[1..])
  }

  /** Every obligation has one fate; at most one is open; every dispatched release took one. */
  predicate Conserved(s: State) {
    var c := s.policy.counts;
    && c.created == c.fulfilled + c.copyFailures + c.cancelled
                    + One(s.policy.outstanding || s.policy.awaiting) + |s.taken| + s.abandoned
    && !(s.policy.outstanding && s.policy.awaiting)
    && (forall i :: 0 <= i < |s.taken| ==> s.taken[i] != NormalCapture)
    && ValidExpiry(s.policy.expiry)
    && c.fulfilled + c.copyFailures + |s.taken| + s.abandoned + One(s.policy.awaiting)
       <= c.dispatched + c.expiryFallback
    && c.dispatched + c.expiryFallback + One(s.policy.outstanding) <= c.created
  }

  lemma {:induction false} StepConserves(s: State, e: Event)
    requires Conserved(s) && Enabled(s, e)
    ensures Conserved(Step(s, e))
  {
    match e
    case ReleaseSlot(now) => ReleaseConserves(s, now);
    case Record(copied) => RecordConserves(s, copied);
    case _ => hide Released, Recorded;
  }

  lemma ReleaseConserves(s: State, now: int)
    requires Conserved(s)
    ensures Conserved(Step(s, ReleaseSlot(now)))
  {
  }

  lemma RecordConserves(s: State, copied: bool)
    requires Conserved(s) && s.taken != []
    ensures Conserved(Step(s, Record(copied)))
  {
  }

  /** created = fulfilled + copy failures + cancelled + the one outstanding or awaiting + taken and unrecorded
      (held or abandoned), in every interleaving, and outstanding and awaiting are never both set. */
  lemma {:induction false} RunConserves(s: State, events: seq<Event>)
    requires Conserved(s) && CanRun(s, events)
    ensures Conserved(Run(s, events))
    decreases |events|
  {
    if events != [] {
      StepConserves(s, events[0]);
      RunConserves(Step(s, events[0]), events[1..]);
    }
  }

  lemma FreshConserves(expiry: int, late: bool)
    ensures Conserved(State(NewPolicy(expiry), [], 0, 0, late))
  {
  }

  // ---------- the expiry reason ----------

  /** An awaiting obligation is marked as expired exactly when its release came at or after the deadline. */
  predicate ReasonRight(s: State) { s.policy.awaiting ==> s.policy.awaitingExpiry == s.late }

  /** One step keeps the reason right unless an outcome is recorded while another expired obligation awaits:
      recording clears that one's mark too. */
  lemma {:induction false} ReasonKept(s: State, e: Event)
    requires Conserved(s) && ReasonRight(s) && Enabled(s, e)
    ensures ReasonRight(Step(s, e)) <==> !(e.Record? && s.policy.awaiting && s.late)
  {
  }

  /** Nothing is observed inside a capture call that holds a taken opportunity: one thread does both, and every
      call ends by recording the opportunity or abandoning it. */
  predicate CaptureAlone(s: State, events: seq<Event>)
    requires CanRun(s, events)
    decreases |events|
  {
    events == [] || ((events[0].Observe? ==> s.taken == []) && CaptureAlone(Step(s, events[0]), events[1..]))
  }

  /** While a call holds an opportunity, no obligation is open: only the observing thread opens one. */
  predicate OneAtATime(s: State) { s.taken != [] ==> |s.taken| == 1 && !s.policy.outstanding && !s.policy.awaiting }

  /** Under that discipline the reason stays right, whatever the releasing and cancelling threads do. */
  lemma {:induction false} ReasonStaysRight(s: State, events: seq<Event>)
    requires Conserved(s) && ReasonRight(s) && OneAtATime(s) && CanRun(s, events) && CaptureAlone(s, events)
    ensures ReasonRight(Run(s, events)) && OneAtATime(Run(s, events))
    decreases |events|
  {
    if events != [] {
      StepConserves(s, events[0]);
      ReasonKept(s, events[0]);
      ReasonStaysRight(Step(s, events[0]), events[1..]);
    }
  }

  /** Without that discipline it can go wrong: an expired obligation is then taken as an ordinary resample. */
  lemma RecordClobbersReason() returns (events: seq<Event>)
    ensures var s := State(NewPolicy(DEFAULT_EXPIRY), [], 0, 0, false);
            && CanRun(s, events) && Run(s, events).policy.awaiting && Run(s, events).late
            && OpportunityOf(Run(s, events).policy) == ResampleCapture
  {
    var full := PipelineState(true, true, false);
    var s0 := State(NewPolicy(DEFAULT_EXPIRY), [], 0, 0, false);
    events := [Observe(true, full, 0), ReleaseSlot(1), Take, Observe(true, full, 10), ReleaseSlot(600), Record(true)];
    var s1 := Step(s0, events[0]);
    var s2 := Step(s1, events[1]);
    var s3 := Step(s2, events[2]);
    var s4 := Step(s3, events[3]);
    var s5 := Step(s4, events[4]);
    var s6 := Step(s5, events[5]);
    assert events[5..][1..] == [];
    assert CanRun(s6, []) && Run(s6, []) == s6;
    assert CanRun(s5, events[5..]) && Run(s5, events[5..]) == s6;
    assert events[4..][1..] == events[5..];
    assert CanRun(s4, events[4..]) && Run(s4, events[4..]) == s6;
    assert events[3..][1..] == events[4..];
    assert CanRun(s3, events[3..]) && Run(s3, events[3..]) == s6;
    assert events[2..][1..] == events[3..];
    assert CanRun(s2, events[2..]) && Run(s2, events[2..]) == s6;
    assert events[1..][1..] == events[2..];
    assert CanRun(s1, events[1..]) && Run(s1, events[1..]) == s6;
  }

  // ---------- the policy and its bridge as objects ----------

  class FullPoolResamplePolicy {
    var expiry: int
    var outstanding: bool
    var awaitingCapture: bool
    var awaitingExpiryFallback: bool
    var deadline: int
    var counts: Counts

    function Abs(): Policy
      reads this
    {
      Policy(expiry, outstanding, awaitingCapture, awaitingExpiryFallback, deadline, counts)
    }

    constructor (expiry: int)
      ensures Abs() == NewPolicy(expiry)
    {
      this.expiry := if ValidExpiry(expiry) then expiry else DEFAULT_EXPIRY;
      outstanding, awaitingCapture, awaitingExpiryFallback, deadline := false, false, false, 0;
      counts := Counts(0, 0, 0, 0, 0, 0, 0);
    }

    method Reconfigure(expiry: int) returns (changed: bool)
      modifies this
      ensures Abs() == Reconfigured(old(Abs()), expiry)
        && changed == (ValidExpiry(expiry) && expiry != old(this.expiry))
    {
      if !ValidExpiry(expiry) || expiry == this.expiry { return false; }
      this.expiry := expiry;
      Cancel();
      return true;
    }

    method ObserveFullPool(full: bool, state: PipelineState, now: int) returns (o: Observation)
      modifies this
      ensures Abs() == Observed(old(Abs()), full, state, now) && o == ObservationOf(old(Abs()), full, state)
    {
      if !(full && state.converting && state.pendingCapture && !state.adapterRetained) { return Ignored; }
      if outstanding || awaitingCapture {
        counts := counts.(coalesced := counts.coalesced + 1);
        return Coalesced;
      }
      outstanding := true;
      deadline := now + expiry;
      counts := counts.(created := counts.created + 1);
      return Created;
    }

    method OnResourceReleased(now: int) returns (r: Release)
      modifies this
      ensures Abs() == Released(old(Abs()), now) && r == ReleaseOf(old(Abs()), now)
    {
      if !outstanding { return NoRelease; }
      outstanding := false;
      awaitingCapture := true;
      awaitingExpiryFallback := now >= deadline;
      if awaitingExpiryFallback {
        counts := counts.(expiryFallback := counts.expiryFallback + 1);
        return DispatchExpiryFallback;
      }
      counts := counts.(dispatched := counts.dispatched + 1);
      return DispatchResample;
    }

    method TakeCaptureOpportunity() returns (o: Opportunity)
      modifies this
      ensures Abs() == Taken(old(Abs())) && o == OpportunityOf(old(Abs()))
    {
      if !awaitingCapture { return NormalCapture; }
      awaitingCapture := false;
      return if awaitingExpiryFallback then ExpiryFallbackCapture else ResampleCapture;
    }

    method RecordCaptureOutcome(o: Opportunity, copied: bool)
      modifies this
      ensures Abs() == Recorded(old(Abs()), o, copied)
    {
      if o == NormalCapture { return; }
      awaitingExpiryFallback := false;
      if copied {
        counts := counts.(fulfilled := counts.fulfilled + 1);
      } else {
        counts := counts.(copyFailures := counts.copyFailures + 1);
      }
    }

    method Cancel()
      modifies this
      ensures Abs() == Cancelled(old(Abs()))
    {
      if outstanding || awaitingCapture { counts := counts.(cancelled := counts.cancelled + 1); }
      outstanding := false;
      awaitingCapture := false;
      awaitingExpiryFallback := false;
    }
  }

  class FullPoolResampleBridge {
    const policy: FullPoolResamplePolicy
    var releaseNotifications: nat
    var requestFailures: nat

    constructor ()
      ensures fresh(policy) && policy.Abs() == NewPolicy(DEFAULT_EXPIRY)
    {
      policy := new FullPoolResamplePolicy(DEFAULT_EXPIRY);
      releaseNotifications, requestFailures := 0, 0;
    }

    /** The section under the lock; true when a composition must be requested outside it. */
    method NotifyReleased(now: int) returns (ask: bool)
      modifies this, policy
      ensures policy.Abs() == Released(old(policy.Abs()), now)
        && ask == (ReleaseOf(old(policy.Abs()), now) != NoRelease)
      ensures releaseNotifications == old(releaseNotifications) + 1 && requestFailures == old(requestFailures)
    {
      releaseNotifications := releaseNotifications + 1;
      var release := policy.OnResourceReleased(now);
      return release != NoRelease;
    }

    /** The section after a refused request. */
    method RequestFailed()
      modifies this, policy
      ensures policy.Abs() == Cancelled(old(policy.Abs())) && requestFailures == old(requestFailures) + 1
      ensures releaseNotifications == old(releaseNotifications)
    {
      requestFailures := requestFailures + 1;
      policy.Cancel();
    }

    /** A whole notification when no other thread gets in between. */
    method OnResourceReleased(now: int, answered: bool)
      modifies this, policy
      ensures policy.Abs() ==
        if ReleaseOf(old(policy.Abs()), now) == NoRelease || answered then Released(old(policy.Abs()), now)
        else Cancelled(Released(old(policy.Abs()), now))
      ensures !answered && ReleaseOf(old(policy.Abs()), now) != NoRelease ==>
        !policy.outstanding && !policy.awaitingCapture && policy.counts.cancelled == old(policy.counts.cancelled) + 1
    {
      var ask := NotifyReleased(now);
      if !ask || answered { return; }
      RequestFailed();
    }
  }
}
