/** The snapshot pool: slots, generations and leases, over any interleaving of copies, releases and
    stale or forged leases. */
module Snapshots {
  import opened Wrappers

  datatype SlotState = Free | Copying | Converting
  datatype Slot = Slot(buffer: int, state: SlotState, generation: nat)
  /** None stands for a null buffer. */
  datatype Lease = Lease(slot: nat, generation: nat, buffer: Option<int>)
  datatype Pool = Pool(slots: seq<Slot>, drops: nat)

  function FirstFree(slots: seq<Slot>, from: nat): (i: nat)
    requires from <= |slots|
    ensures from <= i <= |slots|
    ensures i < |slots| ==> slots[i].state == Free
    ensures forall k :: from <= k < i ==> slots[k].state != Free
    decreases |slots| - from
  {
    if from == |slots| || slots[from].state == Free then from else FirstFree(slots, from + 1)
  }

  /** The lease that answers for a slot now. */
  function Current(p: Pool, i: nat): (l: Lease)
    requires i < |p.slots|
  {
    Lease(i, p.slots[i].generation, Some(p.slots[i].buffer))
  }

  predicate Matches(p: Pool, l: Lease, expected: SlotState) {
    l.slot < |p.slots| && l == Current(p, l.slot) && p.slots[l.slot].state == expected
  }

  function Acquired(p: Pool): (r: (Pool, Option<Lease>)) {
    var i := FirstFree(p.slots, 0);
    if i == |p.slots| then (p.(drops := p.drops + 1), None)
    else
      var taken := p.slots[i].(state := Copying, generation := p.slots[i].generation + 1);
      var q := p.(slots := p.slots[i := taken]);
      (q, Some(Current(q, i)))
  }

  function Moved(p: Pool, l: Lease, from: SlotState, to: SlotState): (q: Pool) {
    if Matches(p, l, from) then p.(slots := p.slots[l.slot := p.slots[l.slot].(state := to)]) else p
  }

  datatype Event = Acquire | HandOff(lease: Lease) | Abort(lease: Lease) | Release(lease: Lease)

  function Step(p: Pool, e: Event): (q: Pool) {
    match e
    case Acquire => Acquired(p).0
    case HandOff(l) => Moved(p, l, Copying, Converting)
    case Abort(l) => Moved(p, l, Copying, Free)
    case Release(l) => Moved(p, l, Converting, Free)
  }

  /** The leases handed out and not yet ended, and all ever handed out. */
  datatype Book = Book(pool: Pool, live: set<Lease>, issued: seq<Lease>)

  predicate Ends(p: Pool, e: Event) {
    (e.Abort? && Matches(p, e.lease, Copying)) || (e.Release? && Matches(p, e.lease, Converting))
  }

  function Kept(b: Book, e: Event): (c: Book) {
    var q := Step(b.pool, e);
    if e.Acquire? then
      match Acquired(b.pool).1
      case None => b.(pool := q)
      case Some(l) => Book(q, b.live + {l}, b.issued + [l])
    else if Ends(b.pool, e) then Book(q, b.live - {e.lease}, b.issued)
    else b.(pool := q)
  }

  function Run(b: Book, events: seq<Event>): (c: Book)
    decreases |events|
  {
    if events == [] then b else Run(Kept(b, events[0]), events[1..])
  }

  function Busy(slots: seq<Slot>): (n: nat)
    ensures n <= |slots|
  {
    if slots == [] then 0 else Busy(slots[..|slots| - 1]) + if slots[|slots| - 1].state == Free then 0 else 1
  }

  /** The live leases are exactly the current leases of the busy slots; no lease is issued twice. */
  ghost predicate Balanced(b: Book) {
    && (forall l :: l in b.live <==>
      l.slot < |b.pool.slots| && l == Current(b.pool, l.slot) && b.pool.slots[l.slot].state != Free)
    && (forall k :: 0 <= k < |b.issued| ==>
      b.issued[k].slot < |b.pool.slots| && b.issued[k].generation <= b.pool.slots[b.issued[k].slot].generation)
    && (forall i, j :: 0 <= i < j < |b.issued| ==> b.issued[i] != b.issued[j])
    && (forall l :: l in b.live ==> l in b.issued)
  }

  lemma AcquireBalances(b: Book)
    requires Balanced(b)
    ensures Balanced(Kept(b, Acquire))
  {
    var i := FirstFree(b.pool.slots, 0);
    var c := Kept(b, Acquire);
    if i < |b.pool.slots| {
      forall l ensures l in c.live <==>
        l.slot < |c.pool.slots| && l == Current(c.pool, l.slot) && c.pool.slots[l.slot].state != Free {
        if l.slot != i && l.slot < |c.pool.slots| { assert c.pool.slots[l.slot] == b.pool.slots[l.slot]; }
      }
    }
  }

  lemma MoveBalances(b: Book, l: Lease, from: SlotState, to: SlotState)
    requires Balanced(b) && from != Free
    ensures Balanced(Book(Moved(b.pool, l, from, to),
                          if to == Free && Matches(b.pool, l, from) then b.live - {l} else b.live, b.issued))
  {
  }

  lemma {:induction false} StepBalances(b: Book, e: Event)
    requires Balanced(b)
    ensures Balanced(Kept(b, e))
  {
    hide Balanced, Matches, Moved, Acquired;
    match e
    case Acquire => AcquireBalances(b);
    case HandOff(l) => MoveBalances(b, l, Copying, Converting);
    case Abort(l) => MoveBalances(b, l, Copying, Free);
    case Release(l) => MoveBalances(b, l, Converting, Free);
  }

  lemma {:induction false} RunBalances(b: Book, events: seq<Event>)
    requires Balanced(b)
    ensures Balanced(Run(b, events))
    decreases |events|
  {
    hide Balanced, Kept;
    if events != [] {
      StepBalances(b, events[0]);
      RunBalances(Kept(b, events[0]), events[1..]);
    }
  }

  lemma {:induction false} BusyUpdate(slots: seq<Slot>, i: nat, s: Slot)
    requires i < |slots|
    ensures Busy(slots[i := s])
      == Busy(slots) - (if slots[i].state == Free then 0 else 1) + (if s.state == Free then 0 else 1)
    decreases |slots|
  {
    var last := |slots| - 1;
    if i < last {
      assert slots[i := s][..last] == slots[..last][i := s];
      BusyUpdate(slots[..last], i, s);
    } else {
      assert slots[i := s][..last] == slots[..last];
    }
  }

  lemma AcquiredIsNew(b: Book)
    requires Balanced(b) && Acquired(b.pool).1.Some?
    ensures Acquired(b.pool).1.value !in b.live
  {
  }

  lemma AcquireCounts(b: Book)
    requires Balanced(b) && Busy(b.pool.slots) == |b.live|
    ensures Busy(Kept(b, Acquire).pool.slots) == |Kept(b, Acquire).live|
  {
    var slots := b.pool.slots;
    var i := FirstFree(slots, 0);
    if i < |slots| {
      AcquiredIsNew(b);
      BusyUpdate(slots, i, slots[i].(state := Copying, generation := slots[i].generation + 1));
    }
    hide Busy, Balanced, FirstFree;
  }

  lemma {:induction false} MoveCounts(b: Book, l: Lease, from: SlotState, to: SlotState)
    requires Balanced(b) && Busy(b.pool.slots) == |b.live| && from != Free
    ensures Busy(Moved(b.pool, l, from, to).slots)
         == |if to == Free && Matches(b.pool, l, from) then b.live - {l} else b.live|
  {
    if Matches(b.pool, l, from) {
      BusyUpdate(b.pool.slots, l.slot, b.pool.slots[l.slot].(state := to));
      assert l in b.live;
    }
    hide Busy, Balanced;
  }

  /** The busy count always equals the number of live leases. */
  lemma {:induction false} StepCounts(b: Book, e: Event)
    requires Balanced(b) && Busy(b.pool.slots) == |b.live|
    ensures Busy(Kept(b, e).pool.slots) == |Kept(b, e).live|
  {
    hide Busy, Balanced, Matches, Acquired, Moved;
    match e
    case Acquire => AcquireCounts(b);
    case HandOff(l) => MoveCounts(b, l, Copying, Converting);
    case Abort(l) => MoveCounts(b, l, Copying, Free);
    case Release(l) => MoveCounts(b, l, Converting, Free);
  }

  lemma {:induction false} FreshBalances(slots: seq<Slot>)
    requires forall i :: 0 <= i < |slots| ==> slots[i].state == Free
    ensures Balanced(Book(Pool(slots, 0), {}, [])) && Busy(slots) == 0
    decreases |slots|
  {
    if slots != [] { FreshBalances(slots[..|slots| - 1]); }
  }

  lemma {:induction false} RunCounts(b: Book, events: seq<Event>)
    requires Balanced(b) && Busy(b.pool.slots) == |b.live|
    ensures Balanced(Run(b, events)) && Busy(Run(b, events).pool.slots) == |Run(b, events).live|
    decreases |events|
  {
    hide Balanced, Kept;
    if events != [] {
      StepBalances(b, events[0]);
      StepCounts(b, events[0]);
      RunCounts(Kept(b, events[0]), events[1..]);
    }
  }

  /** A busy slot becomes free only through its own current lease, and through nothing older. */
  lemma OnlyOwnLeaseFrees(p: Pool, e: Event, i: nat)
    requires i < |p.slots| && p.slots[i].state != Free
    ensures |Step(p, e).slots| == |p.slots|
    ensures Step(p, e).slots[i].state == Free <==> Ends(p, e) && e.lease == Current(p, i)
    ensures Step(p, e).slots[i].generation == p.slots[i].generation
  {
  }

  /** A lease of an older generation, of another buffer or out of range changes nothing. */
  lemma StaleLeaseIsInert(p: Pool, l: Lease)
    requires l.slot >= |p.slots| || l != Current(p, l.slot)
    ensures Step(p, HandOff(l)) == p && Step(p, Abort(l)) == p && Step(p, Release(l)) == p
  {
  }

  /** An acquire fails exactly when every slot is busy, and then only counts a drop. */
  lemma {:induction false} AcquireFailsWhenFull(p: Pool)
    ensures Acquired(p).1.None? <==> forall i :: 0 <= i < |p.slots| ==> p.slots[i].state != Free
    ensures Acquired(p).1.None? <==> Busy(p.slots) == |p.slots|
    ensures Acquired(p).1.None? ==> Acquired(p).0 == p.(drops := p.drops + 1)
  {
    BusyIsFull(p.slots);
  }

  lemma {:induction false} BusyIsFull(slots: seq<Slot>)
    ensures Busy(slots) == |slots| <==> forall i :: 0 <= i < |slots| ==> slots[i].state != Free
    decreases |slots|
  {
    if slots != [] { BusyIsFull(slots[..|slots| - 1]); }
  }

  /** Once ended, a lease is never live again, whatever happens later. */
  lemma {:induction false} EndedStaysEnded(b: Book, l: Lease, events: seq<Event>)
    requires Balanced(b) && l in b.issued && l !in b.live
    ensures l in Run(b, events).issued && l !in Run(b, events).live
    decreases |events|
  {
    hide Kept, Balanced;
    if events != [] {
      StepBalances(b, events[0]);
      EndedStep(b, l, events[0]);
      EndedStaysEnded(Kept(b, events[0]), l, events[1..]);
    }
  }

  lemma {:induction false} EndedStep(b: Book, l: Lease, e: Event)
    requires Balanced(b) && l in b.issued && l !in b.live
    ensures l in Kept(b, e).issued && l !in Kept(b, e).live
  {
    if e.Acquire? && Acquired(b.pool).1.Some? {
      var k :| 0 <= k < |b.issued| && b.issued[k] == l;
      assert b.issued[k].generation <= b.pool.slots[l.slot].generation;
    }
  }

  /** A live lease can always be brought to its end, whatever the other slots are doing. */
  lemma {:induction false} LiveLeaseCanEnd(b: Book, l: Lease)
    requires Balanced(b) && l in b.live
    ensures var c := if b.pool.slots[l.slot].state == Copying then Kept(Kept(b, HandOff(l)), Release(l))
      else Kept(b, Release(l));
            l !in c.live && c.pool.slots[l.slot].state == Free && c.live == b.live - {l}
  {
  }

  // ---------- copies on the GPU ----------

  /** `TryCopy` takes a slot, draws without the lock, and ends its copy in a second section; several copies
      and any releases may interleave. `copying` are the copies between their two sections. */
  datatype Gpu = Gpu(book: Book, copying: set<Lease>, failed: nat)

  datatype GpuEvent = Refuse | Begin | Fail(copy: Lease) | Finish(copy: Lease) | Return(lease: Lease)

  /** The GPU pool tells leases apart by slot and generation only; this is the slot's own lease then. */
  function Named(p: Pool, l: Lease): (m: Lease) {
    if l.slot < |p.slots| && p.slots[l.slot].generation == l.generation then Current(p, l.slot) else l
  }

  predicate GpuEnabled(g: Gpu, e: GpuEvent) {
    match e
    case Fail(l) => l in g.copying
    case Finish(l) => l in g.copying
    case _ => true
  }

  function GpuStep(g: Gpu, e: GpuEvent): (h: Gpu)
    requires GpuEnabled(g, e)
  {
    match e
    case Refuse => g.(failed := g.failed + 1)
    case Begin =>
      var lease := Acquired(g.book.pool).1;
      Gpu(Kept(g.book, Acquire), if lease.Some? then g.copying + {lease.value} else g.copying, g.failed)
    case Fail(l) => Gpu(Kept(g.book, Abort(Named(g.book.pool, l))), g.copying - {l}, g.failed + 1)
    case Finish(l) =>
      var m := Named(g.book.pool, l);
      Gpu(Kept(g.book, HandOff(m)), g.copying - {l}, g.failed + if Matches(g.book.pool, m, Copying) then 0 else 1)
    case Return(l) => g.(book := Kept(g.book, Release(Named(g.book.pool, l))))
  }

  predicate GpuCanRun(g: Gpu, events: seq<GpuEvent>)
    decreases |events|
  {
    events == [] || (GpuEnabled(g, events[0]) && GpuCanRun(GpuStep(g, events[0]), events[1..]))
  }

  function GpuRun(g: Gpu, events: seq<GpuEvent>): (h: Gpu)
    requires GpuCanRun(g, events)
    decreases |events|
  {
    if events == [] then g else GpuRun(GpuStep(g, events[0]), events[1..])
  }

  /** Every copy under way still holds its slot, and every slot in Copying has its copy. */
  ghost predicate CopiesOwn(g: Gpu) {
    && Balanced(g.book)
    && (forall l :: l in g.copying <==> Matches(g.book.pool, l, Copying))
  }

  lemma BeginOwns(p: Pool, copying: set<Lease>)
    requires forall l :: l in copying <==> Matches(p, l, Copying)
    ensures var (q, lease) := Acquired(p);
            forall l :: l in (if lease.Some? then copying + {lease.value} else copying) <==> Matches(q, l, Copying)
  {
    var i := FirstFree(p.slots, 0);
    var q := Acquired(p).0;
    if i < |p.slots| {
      forall l: Lease | l.slot != i ensures Matches(p, l, Copying) == Matches(q, l, Copying) {
      }
    }
  }

  lemma MoveOwns(p: Pool, copying: set<Lease>, m: Lease, from: SlotState, to: SlotState)
    requires (forall l :: l in copying <==> Matches(p, l, Copying)) && from != to && to != Copying
    ensures forall l :: l in (if from == Copying then copying - {m} else copying) <==>
      Matches(Moved(p, m, from, to), l, Copying)
  {
    var q := Moved(p, m, from, to);
    forall l: Lease | l.slot != m.slot ensures Matches(p, l, Copying) == Matches(q, l, Copying) {
    }
  }

  lemma CopyIsNamed(g: Gpu, l: Lease)
    requires CopiesOwn(g) && l in g.copying
    ensures Matches(g.book.pool, l, Copying) && Named(g.book.pool, l) == l
  {
    hide Balanced;
  }

  lemma {:induction false} GpuStepOwns(g: Gpu, e: GpuEvent)
    requires CopiesOwn(g) && GpuEnabled(g, e)
    ensures CopiesOwn(GpuStep(g, e))
  {
    hide Balanced, Matches, Moved, Acquired, Named;
    match e
    case Begin => StepBalances(g.book, Acquire); BeginOwns(g.book.pool, g.copying);
    case Fail(l) =>
      CopyIsNamed(g, l);
      StepBalances(g.book, Abort(l));
      MoveOwns(g.book.pool, g.copying, l, Copying, Free);
    case Finish(l) =>
      CopyIsNamed(g, l);
      StepBalances(g.book, HandOff(l));
      MoveOwns(g.book.pool, g.copying, l, Copying, Converting);
    case Return(l) =>
      var m := Named(g.book.pool, l);
      StepBalances(g.book, Release(m));
      MoveOwns(g.book.pool, g.copying, m, Converting, Free);
    case Refuse =>
  }

  lemma {:induction false} GpuRunOwns(g: Gpu, events: seq<GpuEvent>)
    requires CopiesOwn(g) && GpuCanRun(g, events)
    ensures CopiesOwn(GpuRun(g, events))
    decreases |events|
  {
    hide CopiesOwn, GpuStep, GpuEnabled;
    if events != [] {
      GpuStepOwns(g, events[0]);
      GpuRunOwns(GpuStep(g, events[0]), events[1..]);
    }
  }

  /** So the check after the draw can never fail: a finished copy always reaches Converting, and the only
      failed submissions are refused sources and failed draws. */
  lemma {:induction false} FinishedCopyConverts(g: Gpu, events: seq<GpuEvent>, l: Lease)
    requires CopiesOwn(g) && GpuCanRun(g, events) && l in GpuRun(g, events).copying
    ensures var h := GpuRun(g, events);
            GpuStep(h, Finish(l)).failed == h.failed && Matches(GpuStep(h, Finish(l)).book.pool, l, Converting)
  {
    GpuRunOwns(g, events);
    CopyIsNamed(GpuRun(g, events), l);
    hide Balanced;
  }

  predicate OnlyReturns(events: seq<GpuEvent>) { forall e :: e in events ==> e.Return? }

  /** One `TryCopy` of the only copying thread, with returns of the converting thread while it draws. */
  function TryCopy(g: Gpu, refused: bool, returned: seq<GpuEvent>, drawn: bool): (r: (Gpu, bool)) {
    var lease := Acquired(g.book.pool).1;
    if refused then (GpuStep(g, Refuse), false)
    else if lease.None? then (GpuStep(g, Begin), false)
    else if !GpuCanRun(GpuStep(g, Begin), returned) then (g, false)
    else
      var h := GpuRun(GpuStep(g, Begin), returned);
      var l := lease.value;
      if l !in h.copying then (h, false) else (GpuStep(h, if drawn then Finish(l) else Fail(l)), drawn)
  }

  lemma {:induction false} ReturnsCountNothing(g: Gpu, returned: seq<GpuEvent>)
    requires OnlyReturns(returned)
    ensures GpuCanRun(g, returned)
    ensures var h := GpuRun(g, returned);
            h.copying == g.copying && h.failed == g.failed && h.book.pool.drops == g.book.pool.drops
    decreases |returned|
  {
    if returned != [] {
      assert returned[0] in returned;
      ReturnsCountNothing(GpuStep(g, returned[0]), returned[1..]);
    }
  }

  /** A copy succeeds exactly with a source, a free slot and a drawn image; a failed one moves exactly one of the
      two counters, the drops exactly when no slot was free. */
  lemma {:induction false} FailedCopyMovesOneCounter(g: Gpu, refused: bool, returned: seq<GpuEvent>, drawn: bool)
    requires CopiesOwn(g) && OnlyReturns(returned)
    ensures var (h, copied) := TryCopy(g, refused, returned, drawn);
            var full := Busy(g.book.pool.slots) == |g.book.pool.slots|;
            && copied == (!refused && !full && drawn)
            && h.book.pool.drops == g.book.pool.drops + (if !refused && full then 1 else 0)
            && h.failed == g.failed + (if refused || (!full && !drawn) then 1 else 0)
  {
    AcquireFailsWhenFull(g.book.pool);
    var lease := Acquired(g.book.pool).1;
    if !refused && lease.Some? {
      var b := GpuStep(g, Begin);
      GpuStepOwns(g, Begin);
      ReturnsCountNothing(b, returned);
      GpuRunOwns(b, returned);
      CopyIsNamed(GpuRun(b, returned), lease.value);
      hide GpuRun, GpuCanRun, Busy, Balanced;
    }
  }

  // ---------- the pool as an object ----------

  class SnapshotPool {
    const slots: array<Slot>
    var drops: nat

    ghost function Abs(): Pool
      reads this, slots
    {
      Pool(slots[..], drops)
    }

    /** A null buffer among the inputs leaves the pool without slots. */
    constructor (buffers: seq<Option<int>>)
      ensures fresh(slots) && drops == 0
      ensures if (forall i :: 0 <= i < |buffers| ==> buffers[i].Some?)
        then slots.Length == |buffers| && forall i :: 0 <= i < |buffers| ==> slots[i] == Slot(buffers[i].value, Free, 0)
        else slots.Length == 0
    {
      var usable := true;
      for i := 0 to |buffers|
        invariant usable <==> forall k :: 0 <= k < i ==> buffers[k].Some?
      {
        if buffers[i].None? { usable := false; }
      }
      slots := new Slot[if usable then |buffers| else 0](i requires 0 <= i < |buffers| =>
        Slot(if buffers[i].Some? then buffers[i].value else 0, Free, 0));
      drops := 0;
    }

    method TryAcquire() returns (lease: Option<Lease>)
      modifies this, slots
      ensures (Abs(), lease) == Acquired(old(Abs()))
    {
      for index := 0 to slots.Length
        invariant forall k :: 0 <= k < index ==> slots[k].state != Free
        invariant Abs() == old(Abs())
      {
        if slots[index].state == Free {
          FirstIs(slots[..], index);
          slots[index] := slots[index].(state := Copying, generation := slots[index].generation + 1);
          return Some(Lease(index, slots[index].generation, Some(slots[index].buffer)));
        }
      }
      FirstIs(slots[..], slots.Length);
      drops := drops + 1;
      return None;
    }

    predicate Fits(lease: Lease, expected: SlotState)
      reads this, slots
      ensures Fits(lease, expected) == Matches(Abs(), lease, expected)
    {
      lease.slot < slots.Length && lease.buffer.Some? && slots[lease.slot].buffer == lease.buffer.value
      && slots[lease.slot].generation == lease.generation && slots[lease.slot].state == expected
    }

    method HandOffToConverter(lease: Lease) returns (ok: bool)
      modifies slots
      ensures Abs() == Moved(old(Abs()), lease, Copying, Converting) && ok == old(Matches(Abs(), lease, Copying))
    {
      if !Fits(lease, Copying) { return false; }
      slots[lease.slot] := slots[lease.slot].(state := Converting);
      return true;
    }

    method AbortCopy(lease: Lease) returns (ok: bool)
      modifies slots
      ensures Abs() == Moved(old(Abs()), lease, Copying, Free) && ok == old(Matches(Abs(), lease, Copying))
    {
      if !Fits(lease, Copying) { return false; }
      slots[lease.slot] := slots[lease.slot].(state := Free);
      return true;
    }

    method ReleaseAfterConversion(lease: Lease) returns (ok: bool)
      modifies slots
      ensures Abs() == Moved(old(Abs()), lease, Converting, Free) && ok == old(Matches(Abs(), lease, Converting))
    {
      if !Fits(lease, Converting) { return false; }
      slots[lease.slot] := slots[lease.slot].(state := Free);
      return true;
    }

    method BusyCount() returns (busy: nat)
      ensures busy == Busy(Abs().slots)
    {
      busy := 0;
      for i := 0 to slots.Length
        invariant busy == Busy(slots[..i])
      {
        assert slots[..i + 1][..i] == slots[..i];
        if slots[i].state != Free { busy := busy + 1; }
      }
      assert slots[..slots.Length] == slots[..];
    }
  }

  lemma {:induction false} FirstIs(slots: seq<Slot>, i: nat)
    requires i <= |slots| && (forall k :: 0 <= k < i ==> slots[k].state != Free)
      && (i < |slots| ==> slots[i].state == Free)
    ensures FirstFree(slots, 0) == i
  {
    var f := FirstFree(slots, 0);
    assert f < |slots| ==> slots[f].state == Free;
  }
}
