/** Holding back tiny edge updates: the classifier, its timed state, and what a hold proves about the images. */
module MicroDelta {
  import opened Bits
  import opened Raster
  import opened Wrappers
  import opened D = GrayscaleDelta

  const PPM := 1_000_000

  datatype Edge = Top | Bottom
  datatype Config = Config(changedPpm: u32, boxPpm: u32, edgePpm: u32, edge: Edge, move: u32, settle: int,
      repeat: int) {
    predicate IsValid() {
      && 100 <= changedPpm <= 10_000 && 100 <= boxPpm <= 25_000 && 10_000 <= edgePpm <= 250_000
      && move > 0 && 100 * MS <= settle <= 1_000 * MS && 500 * MS <= repeat <= 5_000 * MS
    }
  }
  const DEFAULTS := Config(2_000, 5_000, 120_000, Bottom, 32, 300 * MS, 2_000 * MS)

  datatype Decision = Substantive | Promoted | Held | RepeatSuppressed
  datatype Signature = Signature(delta: Delta, width: int, height: int)
  datatype State = State(signature: Option<Signature>, deadline: Option<int>, deferred: bool, repeatGuard: bool)
  const IDLE := State(None, None, false, false)

  // ---------- classification ----------

  /** Parts per million in unsigned 64-bit arithmetic: the product wraps. */
  function RatioPpm(numerator: int, denominator: int): (r: int)
    requires numerator >= 0 && denominator >= 0
  {
    if denominator == 0 then 0 else Min(Wrap64(numerator * PPM) / denominator, PPM)
  }

  function EdgeDistance(c: Config, box: Rect, h: int): int {
    if c.edge == Top then box.bottom else h - box.top
  }

  predicate IsMicro(c: Config, d: Delta, w: int, h: int)
    requires d.changed >= 0 && d.total >= 0
  {
    && w > 0 && h > 0 && d.changed != 0 && d.total == Area(w, h)
    && d.box.right - d.box.left > 0 && d.box.bottom - d.box.top > 0
    && d.box.left >= 0 && d.box.top >= 0 && d.box.right <= w && d.box.bottom <= h
    && RatioPpm(d.changed, d.total) <= c.changedPpm
    && (AreaNonNegative(d.box.right - d.box.left, d.box.bottom - d.box.top);
        RatioPpm(Area(d.box.right - d.box.left, d.box.bottom - d.box.top), d.total) <= c.boxPpm)
    && RatioPpm(EdgeDistance(c, d.box, h), h) <= c.edgePpm
  }

  predicate Intersects(a: Rect, b: Rect) {
    a.left < b.right && b.left < a.right && a.top < b.bottom && b.top < a.bottom
  }

  /** `static_cast<int>` of the unsigned limit. */
  function AsInt(limit: u32): int { if limit > INT_MAX then limit - 0x1_0000_0000 else limit }

  predicate EdgeMovedMaterially(a: Rect, b: Rect, limit: u32) {
    || Abs(a.left - b.left) > AsInt(limit) || Abs(a.top - b.top) > AsInt(limit)
    || Abs(a.right - b.right) > AsInt(limit) || Abs(a.bottom - b.bottom) > AsInt(limit)
  }

  predicate Counted(d: Delta) { d.changed >= 0 && d.total >= 0 }

  predicate IsEquivalent(c: Config, previous: Signature, d: Delta, w: int, h: int)
    requires Counted(d)
  {
    && previous.width == w && previous.height == h && IsMicro(c, d, w, h)
    && Intersects(previous.delta.box, d.box) && !EdgeMovedMaterially(previous.delta.box, d.box, c.move)
  }

  // ---------- the timed state ----------

  /** `ClearExpiredRepeat`. */
  function Cleared(s: State, now: int): State {
    if !s.repeatGuard || s.deadline.None? || now < s.deadline.value then s
    else s.(repeatGuard := false, deadline := None, signature := None)
  }

  function Evaluated(c: Config, s: State, delta: Option<Delta>, w: int, h: int, now: int): (r: (State, Decision))
    requires delta.Some? ==> Counted(delta.value)
  {
    var s := Cleared(s, now);
    if delta.None? || !IsMicro(c, delta.value, w, h) then
      (if s.deferred || s.repeatGuard then IDLE else s, Substantive)
    else
      var signature := Some(Signature(delta.value, w, h));
      if s.signature.None? then (s.(signature := signature, deadline := Some(now + c.settle), deferred := true), Held)
      else if !IsEquivalent(c, s.signature.value, delta.value, w, h) then (IDLE, Promoted)
      else (s.(signature := signature, deferred := true), if s.repeatGuard then RepeatSuppressed else Held)
  }

  function ExpiryMarked(c: Config, s: State, now: int): State {
    if !s.deferred then s else s.(deferred := false, repeatGuard := true, deadline := Some(now + c.repeat))
  }

  /** Signature, deadline and a reason to keep them stand or fall together. */
  predicate Coherent(s: State) {
    && (s.signature.Some? <==> s.deadline.Some?)
    && (s.signature.Some? <==> s.deferred || s.repeatGuard)
  }

  /** Clearing an expired repeat window alone breaks coherence exactly when an update was deferred in it. */
  lemma ClearingBreaksCoherence(s: State, now: int)
    requires Coherent(s)
    ensures Coherent(Cleared(s, now)) <==> !(s.repeatGuard && s.deferred && s.deadline.value <= now)
  {
  }

  datatype Op =
    | Evaluate(delta: Option<Delta>, w: int, h: int, at: int)
    | MarkExpiry(when: int)
    | Reset
    | Reconfigure(config: Config)

  predicate WellCounted(op: Op) { op.Evaluate? && op.delta.Some? ==> Counted(op.delta.value) }

  function Applied(c: Config, s: State, op: Op): (r: (Config, State))
    requires WellCounted(op)
  {
    match op
    case Evaluate(delta, w, h, now) => (c, Evaluated(c, s, delta, w, h, now).0)
    case MarkExpiry(now) => (c, ExpiryMarked(c, s, now))
    case Reset => (c, IDLE)
    case Reconfigure(config) => (if config.IsValid() then config else c, s)
  }

  function Run(c: Config, s: State, ops: seq<Op>): (r: (Config, State))
    requires forall op :: op in ops ==> WellCounted(op)
    decreases |ops|
  {
    if ops == [] then (c, s)
    else
      var next := Applied(c, s, ops[0]);
      Run(next.0, next.1, ops[1..])
  }

  /** At every public boundary of every run the state is coherent and the configuration valid. */
  lemma {:induction false} RunIsCoherent(c: Config, s: State, ops: seq<Op>)
    requires c.IsValid() && Coherent(s)
    requires forall op :: op in ops ==> WellCounted(op)
    ensures Run(c, s, ops).0.IsValid() && Coherent(Run(c, s, ops).1)
    decreases |ops|
  {
    if ops != [] {
      var next := Applied(c, s, ops[0]);
      EvaluationIsCoherent(c, s, ops[0]);
      RunIsCoherent(next.0, next.1, ops[1..]);
    }
  }

  lemma EvaluationIsCoherent(c: Config, s: State, op: Op)
    requires c.IsValid() && Coherent(s) && WellCounted(op)
    ensures Applied(c, s, op).0.IsValid() && Coherent(Applied(c, s, op).1)
  {
    hide IsMicro, IsEquivalent;
  }

  datatype Update = Update(delta: Delta, at: int)

  /** Each update is equivalent to the one just before it; the first to the given signature. */
  predicate Chain(c: Config, previous: Signature, updates: seq<Update>)
    decreases |updates|
  {
    updates != [] ==>
      && Counted(updates[0].delta)
      && IsEquivalent(c, previous, updates[0].delta, previous.width, previous.height)
      && Chain(c, previous.(delta := updates[0].delta), updates[1..])
  }

  function Decisions(c: Config, s: State, w: int, h: int, updates: seq<Update>): (r: (State, seq<Decision>))
    requires forall u :: u in updates ==> Counted(u.delta)
    ensures |r.1| == |updates|
    decreases |updates|
  {
    if updates == [] then (s, [])
    else
      var first := Evaluated(c, s, Some(updates[0].delta), w, h, updates[0].at);
      var rest := Decisions(c, first.0, w, h, updates[1..]);
      (rest.0, [first.1] + rest.1)
  }

  lemma {:induction false} ChainIsCounted(c: Config, previous: Signature, updates: seq<Update>)
    requires Chain(c, previous, updates)
    ensures forall u :: u in updates ==> Counted(u.delta)
    decreases |updates|
  {
    hide IsEquivalent;
    if updates != [] { ChainIsCounted(c, previous.(delta := updates[0].delta), updates[1..]); }
  }

  /** However long a chain of equivalent updates runs, and however late, every one is held and the
      deadline set by the first hold never moves; inside a repeat window every one before the deadline
      is suppressed and the repeat deadline never moves. */
  lemma {:induction false} ChainKeepsDeadline(c: Config, s: State, updates: seq<Update>)
    requires Coherent(s) && s.signature.Some?
    requires Chain(c, s.signature.value, updates)
    requires s.repeatGuard ==> forall u :: u in updates ==> u.at < s.deadline.value
    requires forall u :: u in updates ==> Counted(u.delta)
    ensures var w, h := s.signature.value.width, s.signature.value.height;
            var (last, decisions) := Decisions(c, s, w, h, updates);
            && last.deadline == s.deadline && last.repeatGuard == s.repeatGuard && Coherent(last)
            && (updates != [] ==> last.deferred)
            && (forall k :: 0 <= k < |decisions| ==> decisions[k] == if s.repeatGuard then RepeatSuppressed else Held)
    decreases |updates|
  {
    if updates != [] {
      var sig, u := s.signature.value, updates[0];
      EquivalentUpdate(c, s, u.delta, u.at);
      hide Evaluated, IsEquivalent;
      ChainKeepsDeadline(c, s.(signature := Some(sig.(delta := u.delta)), deferred := true), updates[1..]);
    }
  }

  /** One equivalent update renews the signature and touches nothing else that is timed. */
  lemma EquivalentUpdate(c: Config, s: State, d: Delta, now: int)
    requires Coherent(s) && s.signature.Some? && Counted(d)
    requires s.repeatGuard ==> now < s.deadline.value
    requires IsEquivalent(c, s.signature.value, d, s.signature.value.width, s.signature.value.height)
    ensures Evaluated(c, s, Some(d), s.signature.value.width, s.signature.value.height, now)
         == (s.(signature := Some(s.signature.value.(delta := d)), deferred := true),
             if s.repeatGuard then RepeatSuppressed else Held)
  {
    hide IsMicro, Intersects, EdgeMovedMaterially;
  }

  /** A whole hold: the first micro update opens it, and however many equivalent ones follow,
      the deadline stays at the first one's time plus the settle time. */
  lemma {:induction false} HoldWindow(c: Config, s: State, first: Update, w: int, h: int, updates: seq<Update>)
    requires c.IsValid() && Coherent(s) && Cleared(s, first.at).signature.None?
    requires Counted(first.delta) && IsMicro(c, first.delta, w, h)
    requires Chain(c, Signature(first.delta, w, h), updates)
    requires forall u :: u in updates ==> Counted(u.delta)
    ensures var (last, decisions) := Decisions(c, s, w, h, [first] + updates);
            && last.deadline == Some(first.at + c.settle) && last.deferred && !last.repeatGuard
            && (forall k :: 0 <= k <= |updates| ==> decisions[k] == Held)
  {
    var held := State(Some(Signature(first.delta, w, h)), Some(first.at + c.settle), true, false);
    assert Evaluated(c, s, Some(first.delta), w, h, first.at) == (held, Held);
    ChainKeepsDeadline(c, held, updates);
    hide IsMicro, IsEquivalent, Evaluated, Chain;
    var all := [first] + updates;
    assert all[0] == first && all[1..] == updates;
  }

  /** A whole repeat window: after the deferred candidate is submitted, every equivalent update
      before that time plus the repeat time is suppressed. */
  lemma {:induction false} RepeatWindow(c: Config, s: State, submitted: int, updates: seq<Update>)
    requires c.IsValid() && Coherent(s) && s.deferred
    requires Chain(c, s.signature.value, updates)
    requires forall u :: u in updates ==> Counted(u.delta) && u.at < submitted + c.repeat
    ensures var sig := s.signature.value;
            var (last, decisions) := Decisions(c, ExpiryMarked(c, s, submitted), sig.width, sig.height, updates);
            && last.deadline == Some(submitted + c.repeat) && last.repeatGuard
            && (forall k :: 0 <= k < |updates| ==> decisions[k] == RepeatSuppressed)
  {
    ChainKeepsDeadline(c, ExpiryMarked(c, s, submitted), updates);
  }

  predicate Near(a: Rect, b: Rect, limit: int) {
    && Abs(a.left - b.left) <= limit && Abs(a.top - b.top) <= limit
    && Abs(a.right - b.right) <= limit && Abs(a.bottom - b.bottom) <= limit
  }

  /** Equivalence looks only one update back: after n equivalent updates no side is further than n moves from
      the first, and `ChainMayCreep` shows that one move is not the limit. */
  lemma {:induction false} ChainDrift(c: Config, first: Signature, updates: seq<Update>)
    requires updates != [] && (forall u :: u in updates ==> Counted(u.delta)) && Chain(c, first, updates)
    ensures Near(first.delta.box, updates[|updates| - 1].delta.box, |updates| * AsInt(c.move))
    decreases |updates|
  {
    hide IsMicro;
    assert Near(first.delta.box, updates[0].delta.box, AsInt(c.move));
    if |updates| > 1 {
      ChainDrift(c, first.(delta := updates[0].delta), updates[1..]);
      NearAdds(first.delta.box, updates[0].delta.box, updates[|updates| - 1].delta.box, AsInt(c.move), |updates| - 1);
    }
  }

  lemma NearAdds(a: Rect, b: Rect, z: Rect, m: int, n: int)
    requires Near(a, b, m) && Near(b, z, n * m)
    ensures Near(a, z, (n + 1) * m)
  {
    assert (n + 1) * m == m + n * m;
  }

  function CreepBox(x: int): Rect { Rect(x, 990, x + 60, 992) }

  function CreepDelta(x: int): Delta { Delta(2, 2, 0, 1_000_000, CreepBox(x)) }

  /** One step of the creep: two corners appear on a frame that is black there. */
  lemma CreepFrame(p: seq<byte>, x: int) returns (q: seq<byte>)
    requires |p| == 1_000_000 && 0 <= x <= 900 && p[990_000 + x] == 0 && p[991_059 + x] == 0
    ensures |q| == |p| && IsDelta(p, q, 1000, CreepDelta(x))
    ensures forall i :: 0 <= i < |p| && i != 990_000 + x && i != 991_059 + x ==> q[i] == p[i]
  {
    var s := Corners(CreepBox(x), 1000);
    CornersBox(CreepBox(x), 1000, 1000);
    assert s == {990_000 + x, 991_059 + x};
    assert |s| == 2;
    q := Marked(p, s);
    MarkedDelta(p, s, 1000, CreepBox(x));
  }

  lemma BlackFrame(n: nat) returns (p: seq<byte>)
    ensures |p| == n && forall i :: 0 <= i < n ==> p[i] == 0
  {
    p := Blank(n);
  }

  /** Four frames whose three differences form a held chain that ends past the move limit of its first:
      two steps of 20 pixels under a limit of 32. */
  lemma ChainMayCreep() returns (a: seq<byte>, b: seq<byte>, e: seq<byte>, f: seq<byte>)
    ensures |a| == |b| == |e| == |f| == 1_000_000
    ensures IsDelta(a, b, 1000, CreepDelta(0)) && IsDelta(b, e, 1000, CreepDelta(20))
      && IsDelta(e, f, 1000, CreepDelta(40))
    ensures Chain(DEFAULTS, Signature(CreepDelta(0), 1000, 1000),
      [Update(CreepDelta(20), 1), Update(CreepDelta(40), 2)])
    ensures !IsEquivalent(DEFAULTS, Signature(CreepDelta(0), 1000, 1000), CreepDelta(40), 1000, 1000)
  {
    hide IsDelta, Chain, IsEquivalent;
    a := BlackFrame(1_000_000);
    b := CreepFrame(a, 0);
    e := CreepFrame(b, 20);
    f := CreepFrame(e, 40);
    CreepChain();
  }

  lemma CreepChain()
    ensures Chain(DEFAULTS, Signature(CreepDelta(0), 1000, 1000),
      [Update(CreepDelta(20), 1), Update(CreepDelta(40), 2)])
    ensures !IsEquivalent(DEFAULTS, Signature(CreepDelta(0), 1000, 1000), CreepDelta(40), 1000, 1000)
  {
    var first, second := Update(CreepDelta(20), 1), Update(CreepDelta(40), 2);
    assert IsEquivalent(DEFAULTS, Signature(CreepDelta(0), 1000, 1000), CreepDelta(20), 1000, 1000);
    assert IsEquivalent(DEFAULTS, Signature(CreepDelta(20), 1000, 1000), CreepDelta(40), 1000, 1000);
    assert [first, second][1..] == [second] && [second][1..] == [];
  }

  // ---------- what a hold proves about the images ----------

  lemma RatioIsExact(n: int, d: int, limit: int)
    requires 0 <= n && 0 < d && n * PPM < U64_RANGE && 0 <= limit < PPM
    ensures RatioPpm(n, d) <= limit <==> n * PPM < (limit + 1) * d
  {
    var v := n * PPM;
    assert Wrap64(v) == v;
    var q := v / d;
    assert q * d <= v < q * d + d;
    if q <= limit { MulMonotone(q + 1, limit + 1, d); } else { MulMonotone(limit + 1, q, d); }
  }

  datatype Bucket = NoChange | UnderOnePercent | UnderFivePercent | UnderTwentyFivePercent | QuarterOrMore

  /** `ClassifyDeltaCoverage`. */
  function BucketOf(d: Delta): (b: Bucket)
    requires d.changed >= 0 && d.total >= 0
  {
    var ppm := RatioPpm(d.changed, d.total);
    if d.changed == 0 then NoChange
    else if ppm < 10_000 then UnderOnePercent
    else if ppm < 50_000 then UnderFivePercent
    else if ppm < 250_000 then UnderTwentyFivePercent
    else QuarterOrMore
  }

  /** The bucket is the exact share of changed pixels. */
  predicate BucketIsRight(d: Delta)
    requires d.changed >= 0 && d.total >= 0
  {
    && (BucketOf(d) == NoChange <==> d.changed == 0)
    && (BucketOf(d) == UnderOnePercent <==> 0 < d.changed && d.changed * 100 < d.total)
    && (BucketOf(d) == UnderFivePercent <==> d.total <= d.changed * 100 && d.changed * 20 < d.total)
    && (BucketOf(d) == UnderTwentyFivePercent <==> d.total <= d.changed * 20 && d.changed * 4 < d.total)
  }

  /** While the product of the changed count does not wrap, the bucket is right. */
  lemma BucketMeans(d: Delta)
    requires 0 <= d.changed <= d.total && 0 < d.total && d.changed * PPM < U64_RANGE
    ensures BucketIsRight(d)
  {
    RatioIsExact(d.changed, d.total, 9_999);
    RatioIsExact(d.changed, d.total, 49_999);
    RatioIsExact(d.changed, d.total, 249_999);
    hide RatioPpm;
  }

  /** So for an image size every bucket is right if and only if the product of the size does not wrap. */
  lemma BucketsRightExactly(total: int, box: Rect)
    requires 0 < total
    ensures (forall n :: 0 <= n <= total ==> BucketIsRight(Delta(n, n, 0, total, box))) <==> total * PPM < U64_RANGE
  {
    if total * PPM < U64_RANGE {
      forall n | 0 <= n <= total ensures BucketIsRight(Delta(n, n, 0, total, box)) {
        BucketMeans(Delta(n, n, 0, total, box));
      }
    } else {
      var n := WrappingNumerator(total, 9_999);
      assert !BucketIsRight(Delta(n, n, 0, total, box));
    }
  }

  /** The ratio test is right for every numerator exactly when the whole image is small enough that
      the 64-bit product cannot wrap. */
  lemma RatioExactIffNoWrap(d: int, limit: int)
    requires d > 0 && 0 <= limit <= 25_000
    ensures (forall n :: 0 <= n <= d ==> (RatioPpm(n, d) <= limit <==> n * PPM < (limit + 1) * d))
       <==> d * PPM < U64_RANGE
  {
    if d * PPM < U64_RANGE {
      forall n | 0 <= n <= d ensures RatioPpm(n, d) <= limit <==> n * PPM < (limit + 1) * d {
        RatioIsExact(n, d, limit);
      }
    } else {
      var n := WrappingNumerator(d, limit);
      assert !(RatioPpm(n, d) <= limit <==> n * PPM < (limit + 1) * d);
    }
  }

  /** A numerator whose product just passes the last multiple of the word size. */
  lemma WrappingNumerator(d: int, limit: int) returns (n: int)
    requires d * PPM >= U64_RANGE && 0 <= limit <= 25_000
    ensures 0 <= n <= d && RatioPpm(n, d) <= limit && n * PPM >= (limit + 1) * d
  {
    var k := d * PPM / U64_RANGE;
    var passed := k * U64_RANGE;
    n := (passed + PPM - 1) / PPM;
    WrapsToNothing(n, passed, k, d);
    MulMonotone(limit + 1, 25_001, d);
    if d * PPM >= 2 * U64_RANGE {
      assert passed > d * PPM - U64_RANGE;
    }
  }

  lemma WrapsToNothing(n: int, passed: int, k: int, d: int)
    requires d * PPM >= U64_RANGE && k == d * PPM / U64_RANGE && passed == k * U64_RANGE
    requires n == (passed + PPM - 1) / PPM
    ensures passed <= d * PPM < passed + U64_RANGE && passed >= U64_RANGE
    ensures 0 <= n <= d && n * PPM >= passed && RatioPpm(n, d) == 0
  {
    assert passed <= d * PPM < passed + U64_RANGE && passed >= U64_RANGE;
    assert n * PPM - PPM < passed <= n * PPM;
    SmallRemainder(n, k, n * PPM - passed, d);
  }

  lemma SmallRemainder(n: int, k: int, rest: int, d: int)
    requires n >= 0 && n * PPM == k * U64_RANGE + rest && 0 <= rest < PPM < d
    ensures RatioPpm(n, d) == 0
  {
    RemainderOf(n * PPM, k, rest);
    hide Wrap64;
    DivUnique(0, rest, d);
    assert 0 * d == 0;
  }

  lemma RemainderOf(v: int, k: int, rest: int)
    requires v == k * U64_RANGE + rest && 0 <= rest < U64_RANGE
    ensures Wrap64(v) == rest
  {
  }

  lemma {:induction false} RangeBoundsSize(d: set<int>, from: int, n: nat)
    requires forall i :: i in d ==> from <= i < from + n
    ensures |d| <= n
    decreases n
  {
    if n > 0 {
      RangeBoundsSize(d - {from + n - 1}, from, n - 1);
    } else {
      forall i ensures i !in d { }
      assert d == {};
    }
  }

  ghost predicate InBand(c: Config, i: int, w: int, h: int)
    requires w > 0
  {
    (if c.edge == Top then Row(i, w) + 1 else h - Row(i, w)) * PPM < (c.edgePpm + 1) * h
  }

  /** The band test on the box is the band test on every differing pixel. */
  lemma BandFollowsPixels(c: Config, d: set<int>, w: int, h: int, box: Rect)
    requires c.IsValid() && w > 0 && 0 < h <= INT_MAX && d != {} && TightBox(d, w, box)
    requires box.IsValid() && box.bottom <= h
    ensures RatioPpm(EdgeDistance(c, box, h), h) <= c.edgePpm <==> forall i :: i in d ==> InBand(c, i, w, h)
  {
    RatioIsExact(EdgeDistance(c, box, h), h, c.edgePpm);
    var t, u :| t in d && Row(t, w) == box.top && u in d && Row(u, w) == box.bottom - 1;
    hide RatioPpm, Row, Col;
    if forall i :: i in d ==> InBand(c, i, w, h) {
      assert InBand(c, t, w, h) && InBand(c, u, w, h);
    }
  }

  /** What a hold promises: something differs, few pixels do, their tight box is small, and every one of them
      lies in the edge band. */
  ghost predicate FewPixelsAtEdge(c: Config, p: seq<byte>, q: seq<byte>, w: int, h: int, d: Delta)
    requires w > 0 && |p| == |q|
  {
    var differing := Differing(p, q, |p|);
    && p != q
    && |differing| * PPM < (c.changedPpm + 1) * |p|
    && Area(d.box.right - d.box.left, d.box.bottom - d.box.top) * PPM < (c.boxPpm + 1) * |p|
    && forall i :: i in differing ==> InBand(c, i, w, h)
  }

  /** The rows of the band. */
  function BandRows(c: Config, h: int): (rows: int)
    requires h > 0
  {
    ((c.edgePpm + 1) * h - 1) / PPM
  }

  /** A whole band of changed pixels is large enough to wrap the 64-bit product, and larger than the smaller of
      the two configured shares. */
  predicate BandWraps(c: Config, w: int, h: int)
    requires h > 0
  {
    var band := Area(w, BandRows(c, h)) * PPM;
    band >= U64_RANGE && band >= (Min(c.changedPpm, c.boxPpm) + 1) * Area(w, h)
  }

  lemma BandRowsMeans(c: Config, h: int, distance: int)
    requires c.IsValid() && 0 < h
    ensures distance * PPM < (c.edgePpm + 1) * h <==> distance <= BandRows(c, h)
    ensures 0 <= BandRows(c, h) <= h && BandRows(c, h) * PPM < (c.edgePpm + 1) * h
  {
    var v := (c.edgePpm + 1) * h - 1;
    MulMonotone(c.edgePpm + 1, PPM, h);
    assert v >= 0 by { MulMonotone(1, c.edgePpm + 1, h); }
    assert v / PPM * PPM <= v < v / PPM * PPM + PPM;
  }

  lemma WrappedRatio(n: int, d: int, limit: int)
    requires 0 <= n && 0 < d && 0 <= limit < PPM && Wrap64(n * PPM) < (limit + 1) * d
    ensures RatioPpm(n, d) <= limit
  {
    var v := Wrap64(n * PPM);
    hide Wrap64;
    assert v / d * d <= v;
    if v / d > limit { MulMonotone(limit + 1, v / d, d); }
  }

  /** On an image so large that the allowed share exceeds the word, every count passes. */
  lemma AnyRatio(n: int, d: int, limit: int)
    requires 0 <= n && 0 < d && 0 <= limit < PPM && (limit + 1) * d >= U64_RANGE
    ensures RatioPpm(n, d) <= limit
  {
    var v := n * PPM;
    assert Wrap64(v) < U64_RANGE;
    hide Wrap64;
    WrappedRatio(n, d, limit);
  }

  /** A wrapped product is never above the true one, so few pixels always pass. */
  lemma RatioBelow(n: int, d: int, limit: int)
    requires 0 <= n && 0 < d && 0 <= limit < PPM && n * PPM < (limit + 1) * d
    ensures RatioPpm(n, d) <= limit
  {
    assert Wrap64(n * PPM) <= n * PPM;
    WrappedRatio(n, d, limit);
  }

  lemma InRowsCount(d: set<int>, w: int, top: int, bottom: int)
    requires w > 0 && top <= bottom && forall i :: i in d ==> top <= Row(i, w) < bottom
    ensures |d| <= Area(w, bottom - top)
  {
    AreaNonNegative(w, bottom - top);
    forall i | i in d ensures Area(w, top) <= i < Area(w, top) + Area(w, bottom - top) {
      InRows(i, w, top, bottom);
      assert Area(w, bottom) == Area(w, top) + Area(w, bottom - top);
    }
    hide Area, Row;
    RangeBoundsSize(d, Area(w, top), Area(w, bottom - top));
  }

  /** A tight box within the band has its rows there. */
  lemma BoxInBand(c: Config, box: Rect, w: int, h: int)
    requires c.IsValid() && 0 < w && 0 < h <= INT_MAX && box.IsValid() && box.right <= w && box.bottom <= h
    requires RatioPpm(EdgeDistance(c, box, h), h) <= c.edgePpm
    ensures 0 <= BandRows(c, h) <= h
    ensures if c.edge == Top then box.bottom <= BandRows(c, h) else h - BandRows(c, h) <= box.top
    ensures 0 <= Area(box.right - box.left, box.bottom - box.top) <= Area(w, BandRows(c, h))
  {
    RatioIsExact(EdgeDistance(c, box, h), h, c.edgePpm);
    BandRowsMeans(c, h, EdgeDistance(c, box, h));
    hide BandRows, RatioPpm;
    SubArea(box.right - box.left, box.bottom - box.top, w, BandRows(c, h));
  }

  /** Changes whose box is in the band stay within the band's size. */
  lemma BandBounds(c: Config, d: set<int>, w: int, h: int, box: Rect)
    requires c.IsValid() && 0 < w && 0 < h <= INT_MAX && box.IsValid() && box.right <= w && box.bottom <= h
    requires d != {} && TightBox(d, w, box) && RatioPpm(EdgeDistance(c, box, h), h) <= c.edgePpm
    ensures |d| <= Area(w, BandRows(c, h))
    ensures 0 <= Area(box.right - box.left, box.bottom - box.top) <= Area(w, BandRows(c, h))
  {
    BoxInBand(c, box, w, h);
    hide BandRows, RatioPpm, Row, Col, Area, Touches, EdgeDistance;
    var rows := BandRows(c, h);
    if c.edge == Top { InRowsCount(d, w, 0, rows); } else { InRowsCount(d, w, h - rows, h); }
  }

  lemma InRows(i: int, w: int, top: int, bottom: int)
    requires w > 0
    ensures top <= Row(i, w) < bottom <==> Area(w, top) <= i < Area(w, bottom)
  {
    var y := Row(i, w);
    assert y * w <= i < y * w + w;
    if top <= y { MulMonotone(top, y, w); } else { MulMonotone(y + 1, top, w); }
    if y < bottom { MulMonotone(y + 1, bottom, w); } else { MulMonotone(bottom, y, w); }
  }

  lemma SubArea(a: int, b: int, w: int, h: int)
    requires 0 <= a <= w && 0 <= b <= h
    ensures 0 <= Area(a, b) <= Area(w, h)
  {
    MulMonotone(a, w, b);
    MulMonotone(b, h, w);
    AreaNonNegative(a, b);
  }

  /** Few pixels at the edge are micro on an image of any size. */
  lemma FewPixelsAreMicro(c: Config, p: seq<byte>, q: seq<byte>, w: int, h: int, d: Delta)
    requires c.IsValid() && 0 < w && 0 < h <= INT_MAX && |p| == |q| == Area(w, h) && IsDelta(p, q, w, d)
    requires FewPixelsAtEdge(c, p, q, w, h, d)
    ensures IsMicro(c, d, w, h)
  {
    var differing := Differing(p, q, |p|);
    NoneDiffering(p, q);
    hide RatioPpm, InBand, Covers, Touches;
    TightBoxWithin(differing, w, h, d.box);
    SubArea(d.box.right - d.box.left, d.box.bottom - d.box.top, w, h);
    BandFollowsPixels(c, differing, w, h, d.box);
    hide Differing;
    RatioBelow(|differing|, |p|, c.changedPpm);
    RatioBelow(Area(d.box.right - d.box.left, d.box.bottom - d.box.top), |p|, c.boxPpm);
  }

  /** A count within the band is measured right unless the band wraps. */
  lemma BandRatio(n: int, band: int, d: int, limit: int)
    requires 0 <= n <= band && 0 < d && 0 <= limit < PPM && RatioPpm(n, d) <= limit
    requires band * PPM < U64_RANGE || band * PPM < (limit + 1) * d
    ensures n * PPM < (limit + 1) * d
  {
    if band * PPM < U64_RANGE { RatioIsExact(n, d, limit); }
  }

  /** Unless the band wraps, micro updates are exactly those with few pixels at the edge. */
  lemma MicroIffFewPixelsAtEdge(c: Config, p: seq<byte>, q: seq<byte>, w: int, h: int, d: Delta)
    requires c.IsValid() && 0 < w && 0 < h <= INT_MAX && |p| == |q| == Area(w, h) && IsDelta(p, q, w, d)
    requires !BandWraps(c, w, h)
    ensures IsMicro(c, d, w, h) <==> FewPixelsAtEdge(c, p, q, w, h, d)
  {
    var differing := Differing(p, q, |p|);
    NoneDiffering(p, q);
    if IsMicro(c, d, w, h) {
      hide RatioPpm, InBand, Covers, Touches, BandRows;
      TightBoxWithin(differing, w, h, d.box);
      BandFollowsPixels(c, differing, w, h, d.box);
      BandBounds(c, differing, w, h, d.box);
      hide Differing, TightBox, EdgeDistance;
      MulMonotone(Min(c.changedPpm, c.boxPpm) + 1, c.changedPpm + 1, |p|);
      MulMonotone(Min(c.changedPpm, c.boxPpm) + 1, c.boxPpm + 1, |p|);
      var band, area := Area(w, BandRows(c, h)), Area(d.box.right - d.box.left, d.box.bottom - d.box.top);
      BandRatio(|differing|, band, |p|, c.changedPpm);
      BandRatio(area, band, |p|, c.boxPpm);
    } else if FewPixelsAtEdge(c, p, q, w, h, d) {
      hide IsMicro, FewPixelsAtEdge;
      FewPixelsAreMicro(c, p, q, w, h, d);
    }
  }

  // ---------- where the promise breaks ----------

  /** An image pair that passes as micro without few pixels at the edge. */
  ghost predicate BreaksPromise(c: Config, w: int, h: int, p: seq<byte>, q: seq<byte>, d: Delta)
    requires w > 0 && h > 0
  {
    && |p| == |q| == Area(w, h) && IsDelta(p, q, w, d)
    && IsMicro(c, d, w, h) && !FewPixelsAtEdge(c, p, q, w, h, d)
  }

  lemma EdgePasses(c: Config, box: Rect, h: int)
    requires c.IsValid() && 0 < h <= INT_MAX && box.IsValid() && box.bottom <= h
    requires EdgeDistance(c, box, h) <= BandRows(c, h)
    ensures RatioPpm(EdgeDistance(c, box, h), h) <= c.edgePpm
  {
    BandRowsMeans(c, h, EdgeDistance(c, box, h));
    RatioIsExact(EdgeDistance(c, box, h), h, c.edgePpm);
  }

  function BandBox(c: Config, width: int, rows: int, h: int): (box: Rect) {
    if c.edge == Top then Rect(0, 0, width, rows) else Rect(0, h - rows, width, h)
  }

  lemma BandBoxFacts(c: Config, w: int, h: int, width: int)
    requires c.IsValid() && 0 < h <= INT_MAX && 0 < width <= w && 0 < BandRows(c, h)
    ensures var box := BandBox(c, width, BandRows(c, h), h);
            && box.IsValid() && box.right <= w && box.bottom <= h && box.right - box.left == width
            && box.bottom - box.top == BandRows(c, h) && RatioPpm(EdgeDistance(c, box, h), h) <= c.edgePpm
  {
    BandRowsMeans(c, h, 0);
    hide RatioPpm, BandRows;
    EdgePasses(c, BandBox(c, width, BandRows(c, h), h), h);
  }

  /** The image pair that differs in the given pixels passes when the two ratios and the edge do. */
  lemma PairFor(c: Config, w: int, h: int, s: set<int>, box: Rect) returns (p: seq<byte>, q: seq<byte>, d: Delta)
    requires c.IsValid() && 0 < w && 0 < h <= INT_MAX && 0 < Area(w, h) && s != {} && TightBox(s, w, box)
    requires (forall i :: i in s ==> 0 <= i < Area(w, h)) && box.IsValid() && box.right <= w && box.bottom <= h
    requires RatioPpm(EdgeDistance(c, box, h), h) <= c.edgePpm && RatioPpm(|s|, Area(w, h)) <= c.changedPpm
    requires var area := Area(box.right - box.left, box.bottom - box.top);
             area >= 0 && RatioPpm(area, Area(w, h)) <= c.boxPpm
    ensures |p| == |q| == Area(w, h) && IsDelta(p, q, w, d) && IsMicro(c, d, w, h)
    ensures d.box == box && |Differing(p, q, |p|)| == |s|
  {
    p := Blank(Area(w, h));
    q := Marked(p, s);
    MarkedDelta(p, s, w, box);
    d := Delta(|s|, |s|, 0, |p|, box);
    hide RatioPpm, TightBox, EdgeDistance, Area;
  }

  /** Two corners of a wide box in the band whose area wraps. */
  lemma CornersBreak(c: Config, w: int, h: int, width: int) returns (p: seq<byte>, q: seq<byte>, d: Delta)
    requires c.IsValid() && 0 < h <= INT_MAX && 0 < width <= w && 0 < BandRows(c, h) && 2 * PPM < Area(w, h)
    requires Area(width, BandRows(c, h)) >= 0 && RatioPpm(Area(width, BandRows(c, h)), Area(w, h)) <= c.boxPpm
    requires Area(width, BandRows(c, h)) * PPM >= (c.boxPpm + 1) * Area(w, h)
    ensures BreaksPromise(c, w, h, p, q, d)
  {
    var box := BandBox(c, width, BandRows(c, h), h);
    BandBoxFacts(c, w, h, width);
    MulMonotone(1, c.changedPpm + 1, Area(w, h));
    hide BandRows, BandBox, RatioPpm, InBand, Corners, TightBox, EdgeDistance, IsMicro, IsDelta, Area;
    CornersBox(box, w, h);
    RatioBelow(|Corners(box, w)|, Area(w, h), c.changedPpm);
    p, q, d := PairFor(c, w, h, Corners(box, w), box);
  }

  /** n pixels in a row. */
  function Stretch(from: int, n: nat): (d: set<int>)
    ensures forall i :: i in d <==> from <= i < from + n
    ensures |d| == n
  {
    if n == 0 then {} else Stretch(from, n - 1) + {from + n - 1}
  }

  /** The first pixel of a stretch that ends where the band does. */
  function BandStart(c: Config, w: int, h: int, n: int): int { if c.edge == Top then 0 else Area(w, h) - n }

  /** A tight box around band pixels is in the band. */
  lemma BoxOfBand(c: Config, d: set<int>, w: int, h: int, box: Rect)
    requires c.IsValid() && 0 < w && 0 < h <= INT_MAX && d != {} && TightBox(d, w, box)
    requires box.IsValid() && box.right <= w && box.bottom <= h
    requires var rows := BandRows(c, h);
             forall i :: i in d ==> if c.edge == Top then Row(i, w) < rows else h - rows <= Row(i, w)
    ensures RatioPpm(EdgeDistance(c, box, h), h) <= c.edgePpm
  {
    var t, u :| t in d && Row(t, w) == box.top && u in d && Row(u, w) == box.bottom - 1;
    hide BandRows, RatioPpm, Row, Col, Covers;
    EdgePasses(c, box, h);
  }

  lemma StretchInBand(c: Config, w: int, h: int, n: int, i: int)
    requires c.IsValid() && 0 < w && 0 < h <= INT_MAX && 0 < n <= Area(w, BandRows(c, h))
    requires BandStart(c, w, h, n) <= i < BandStart(c, w, h, n) + n
    ensures 0 <= i < Area(w, h)
    ensures if c.edge == Top then Row(i, w) < BandRows(c, h) else h - BandRows(c, h) <= Row(i, w)
  {
    var rows := BandRows(c, h);
    BandRowsMeans(c, h, 0);
    hide BandRows;
    assert Area(w, h - rows) + Area(w, rows) == Area(w, h);
    SubArea(w, rows, w, h);
    SubArea(w, h - rows, w, h);
    hide Row;
    if c.edge == Top { InRows(i, w, 0, rows); } else { InRows(i, w, h - rows, h); }
    hide Area;
  }

  /** The tight box of a stretch of band pixels. */
  lemma StretchBox(c: Config, w: int, h: int, n: int) returns (box: Rect)
    requires c.IsValid() && 0 < w && 0 < h <= INT_MAX && 0 < n <= Area(w, BandRows(c, h))
    ensures var s := Stretch(BandStart(c, w, h, n), n);
            s != {} && TightBox(s, w, box) && forall i :: i in s ==> 0 <= i < Area(w, h)
    ensures box.IsValid() && box.right <= w && box.bottom <= h && RatioPpm(EdgeDistance(c, box, h), h) <= c.edgePpm
  {
    var s := Stretch(BandStart(c, w, h, n), n);
    assert BandStart(c, w, h, n) in s;
    hide BandRows, RatioPpm, Row, Col, BandStart, TightBox, Area, EdgeDistance;
    forall i | i in s
      ensures 0 <= i < Area(w, h)
      ensures if c.edge == Top then Row(i, w) < BandRows(c, h) else h - BandRows(c, h) <= Row(i, w)
    {
      StretchInBand(c, w, h, n, i);
    }
    box := TightBoxExists(s, w);
    TightBoxWithin(s, w, h, box);
    BoxOfBand(c, s, w, h, box);
  }

  /** A stretch whose count wraps, on an image where no area can fail the box test. */
  lemma StretchBreaks(c: Config, w: int, h: int, n: int) returns (p: seq<byte>, q: seq<byte>, d: Delta)
    requires c.IsValid() && 0 < w && 0 < h <= INT_MAX && 0 < n <= Area(w, BandRows(c, h)) && 0 < Area(w, h)
    requires RatioPpm(n, Area(w, h)) <= c.changedPpm && n * PPM >= (c.changedPpm + 1) * Area(w, h)
    requires (c.boxPpm + 1) * Area(w, h) >= U64_RANGE
    ensures BreaksPromise(c, w, h, p, q, d)
  {
    hide BandRows, BandStart, Stretch, RatioPpm, EdgeDistance, Area, IsMicro, IsDelta, InBand, TightBox;
    var box := StretchBox(c, w, h, n);
    var s := Stretch(BandStart(c, w, h, n), n);
    assert |s| == n;
    SubArea(box.right - box.left, box.bottom - box.top, w, h);
    AnyRatio(Area(box.right - box.left, box.bottom - box.top), Area(w, h), c.boxPpm);
    p, q, d := PairFor(c, w, h, s, box);
  }

  /** The first multiple of s at or past the word size. */
  lemma FirstCrossing(s: int, w: int) returns (k: int)
    requires 0 < s < U64_RANGE && w * s >= U64_RANGE
    ensures 0 < k <= w && U64_RANGE <= k * s < U64_RANGE + s && Wrap64(k * s) == k * s - U64_RANGE
  {
    k := (U64_RANGE + s - 1) / s;
    var v := U64_RANGE + s - 1;
    assert k * s <= v < k * s + s;
    assert (k - 1) * s == k * s - s;
    if k > w { MulMonotone(w, k - 1, s); }
    if k <= 0 { MulMonotone(k, 0, s); }
    RemainderOf(k * s, 1, k * s - U64_RANGE);
  }

  lemma WideBand(w: int, h: int, s: int, e: int)
    requires 0 < h <= INT_MAX && 0 < e <= 250_001 && 0 < s < e * h && w * s >= U64_RANGE
    ensures w >= 2_476 && s < U64_RANGE
  {
    MulMonotone(h, INT_MAX, e);
    MulMonotone(e, 250_001, INT_MAX);
    assert s < 250_001 * INT_MAX;
    if w < 2_476 {
      MulMonotone(w, 2_475, s);
    }
  }

  lemma BandFacts(c: Config, w: int, h: int)
    requires c.IsValid() && 0 < w && 0 < h <= INT_MAX && BandWraps(c, w, h)
    ensures var s := BandRows(c, h) * PPM;
            && 0 < BandRows(c, h) && 0 < s < U64_RANGE && w * s == Area(w, BandRows(c, h)) * PPM
            && 2 * PPM < Area(w, h) && s <= (c.boxPpm + 1) * Area(w, h)
  {
    var rows := BandRows(c, h);
    BandRowsMeans(c, h, 0);
    hide BandRows;
    var s := rows * PPM;
    assert Area(w, rows) * PPM == w * s;
    assert rows == 0 ==> Area(w, rows) == 0;
    WideBand(w, h, s, c.edgePpm + 1);
    MulMonotone(rows, h, w);
    MulMonotone(2_476, w, h);
    MulMonotone(101, c.boxPpm + 1, Area(w, h));
    MulMonotone(c.edgePpm + 1, 250_001, h);
  }

  /** Once the band wraps, some pair of that size breaks the promise. */
  lemma BandWrapBreaks(c: Config, w: int, h: int) returns (p: seq<byte>, q: seq<byte>, d: Delta)
    requires c.IsValid() && 0 < w && 0 < h <= INT_MAX && BandWraps(c, w, h)
    ensures BreaksPromise(c, w, h, p, q, d)
  {
    BandFacts(c, w, h);
    var rows, size := BandRows(c, h), Area(w, h);
    hide BandRows, BreaksPromise;
    var band := Area(w, rows);
    if (c.boxPpm + 1) * size <= U64_RANGE {
      var k := FirstCrossing(rows * PPM, w);
      assert Area(k, rows) * PPM == k * (rows * PPM);
      AreaNonNegative(k, rows);
      hide Area;
      WrappedRatio(Area(k, rows), size, c.boxPpm);
      p, q, d := CornersBreak(c, w, h, k);
    } else if band * PPM >= (c.boxPpm + 1) * size {
      hide Area;
      WrappedRatio(band, size, c.boxPpm);
      p, q, d := CornersBreak(c, w, h, w);
    } else {
      hide Area;
      p, q, d := CountWraps(c, w, h, rows);
    }
  }

  lemma CountWraps(c: Config, w: int, h: int, rows: int) returns (p: seq<byte>, q: seq<byte>, d: Delta)
    requires c.IsValid() && 0 < w && 0 < h <= INT_MAX && rows == BandRows(c, h) && 2 * PPM < Area(w, h)
    requires Area(w, rows) * PPM >= U64_RANGE && Area(w, rows) * PPM >= (c.changedPpm + 1) * Area(w, h)
    requires (c.boxPpm + 1) * Area(w, h) > U64_RANGE
    ensures BreaksPromise(c, w, h, p, q, d)
  {
    var band, size := Area(w, rows), Area(w, h);
    hide BandRows, BreaksPromise, Area;
    var n := band;
    if (c.changedPpm + 1) * size <= U64_RANGE {
      n := FirstCrossing(PPM, band);
      MulMonotone(1, c.changedPpm + 1, size);
    }
    WrappedRatio(n, size, c.changedPpm);
    p, q, d := StretchBreaks(c, w, h, n);
  }

  /** For every valid configuration and size: micro means few pixels at the edge, for all image pairs, if and
      only if the band does not wrap. */
  lemma MicroPromiseExact(c: Config, w: int, h: int)
    requires c.IsValid() && 0 < w && 0 < h <= INT_MAX
    ensures (forall p: seq<byte>, q: seq<byte>, d: Delta | |p| == |q| == Area(w, h) && IsDelta(p, q, w, d) ::
               IsMicro(c, d, w, h) ==> FewPixelsAtEdge(c, p, q, w, h, d))
       <==> !BandWraps(c, w, h)
  {
    if BandWraps(c, w, h) {
      var p, q, d := BandWrapBreaks(c, w, h);
      hide IsDelta, IsMicro, FewPixelsAtEdge, BandWraps, Area;
      assert IsDelta(p, q, w, d);
    } else {
      forall p: seq<byte>, q: seq<byte>, d: Delta | |p| == |q| == Area(w, h) && IsDelta(p, q, w, d)
        ensures IsMicro(c, d, w, h) ==> FewPixelsAtEdge(c, p, q, w, h, d)
      {
        MicroIffFewPixelsAtEdge(c, p, q, w, h, d);
      }
    }
  }

  /** Held or suppressed means micro; so unless the band wraps no hold ever hides a large or a distant change. */
  lemma HoldMeansFewPixels(c: Config, s: State, p: seq<byte>, q: seq<byte>, w: int, h: int, d: Delta, now: int)
    requires c.IsValid() && 0 < w && 0 < h <= INT_MAX && |p| == |q| == Area(w, h) && IsDelta(p, q, w, d)
    requires !BandWraps(c, w, h)
    ensures Evaluated(c, s, Some(d), w, h, now).1 in {Held, RepeatSuppressed} ==> FewPixelsAtEdge(c, p, q, w, h, d)
  {
    MicroIffFewPixelsAtEdge(c, p, q, w, h, d);
    hide IsMicro, FewPixelsAtEdge, Area, BandWraps;
  }

  /** When the band wraps, some pair of that size is held from the idle state against the promise. */
  lemma HoldBreaks(c: Config, w: int, h: int, now: int) returns (p: seq<byte>, q: seq<byte>, d: Delta)
    requires c.IsValid() && 0 < w && 0 < h <= INT_MAX && BandWraps(c, w, h)
    ensures |p| == |q| == Area(w, h) && IsDelta(p, q, w, d)
    ensures Evaluated(c, IDLE, Some(d), w, h, now).1 == Held && !FewPixelsAtEdge(c, p, q, w, h, d)
  {
    p, q, d := BandWrapBreaks(c, w, h);
    hide IsMicro, FewPixelsAtEdge, Area, BandWraps;
  }

  lemma BottomPixel(x: int, y: int, w: int, h: int, rows: int)
    requires 0 <= x < w && 0 < rows <= h && h - rows <= y < h
    ensures Area(w, h - rows) <= At(x, y, w) < Area(w, h)
    ensures Col(At(x, y, w), w) == x && Row(At(x, y, w), w) == y
  {
    AtBounds(x, y, w, h);
    hide At;
    InRows(At(x, y, w), w, h - rows, h);
  }

  lemma BottomArea(w: int, h: int, rows: int)
    requires 0 < w && 0 < rows <= h
    ensures Area(w, h) == Area(w, h - rows) + Area(w, rows) && 0 <= Area(w, h - rows) && 0 <= Area(w, rows)
  {
    MulMonotone(0, h - rows, w);
    MulMonotone(0, rows, w);
  }

  lemma BottomRow(i: int, w: int, h: int, rows: int)
    requires 0 < w && 0 < rows <= h && Area(w, h - rows) <= i < Area(w, h)
    ensures 0 <= Col(i, w) < w && h - rows <= Row(i, w) < h
  {
    BottomArea(w, h, rows);
    hide Area, Col, Row;
    SplitBounds(i, w, h);
    InRows(i, w, h - rows, h);
  }

  /** The bottom rows are a stretch with the box one expects. */
  lemma BottomBox(w: int, h: int, rows: int, from: int, n: nat)
    requires 0 < w && 0 < rows <= h && from == Area(w, h - rows) && n == Area(w, rows)
    ensures from + n == Area(w, h) && 0 <= from
    ensures TightBox(Stretch(from, n), w, Rect(0, h - rows, w, h))
  {
    var s := Stretch(from, n);
    BottomArea(w, h, rows);
    BottomPixel(0, h - rows, w, h, rows);
    BottomPixel(w - 1, h - 1, w, h, rows);
    hide At, Col, Row, Area, Stretch;
    assert At(0, h - rows, w) in s && At(w - 1, h - 1, w) in s;
    forall i | i in s ensures 0 <= Col(i, w) < w && h - rows <= Row(i, w) < h { BottomRow(i, w, h, rows); }
  }

  lemma QuarterIsMicro()
    ensures var w, h, rows := 2_147_483_647, 34_360, 8_590;
            var c, d := DEFAULTS.(edgePpm := 250_000), Delta(w * rows, w * rows, 0, w * h, Rect(0, h - rows, w, h));
            c.IsValid() && BandWraps(c, w, h) && IsMicro(c, d, w, h) && d.changed * PPM >= 250_000 * d.total
  {
    var n := 2_147_483_647 * 8_590;
    RemainderOf(n * PPM, 1, 140_454_020_448_384);
  }

  /** The whole bottom quarter of this image changes and the pair passes as micro. */
  lemma WrapHidesAQuarter() returns (p: seq<byte>, q: seq<byte>, d: Delta)
    ensures var c, w, h := DEFAULTS.(edgePpm := 250_000), 2_147_483_647, 34_360;
            && c.IsValid() && BandWraps(c, w, h) && |p| == |q| == Area(w, h) && IsDelta(p, q, w, d)
            && IsMicro(c, d, w, h) && d.changed * PPM >= 250_000 * d.total
  {
    var w, h, rows := 2_147_483_647, 34_360, 8_590;
    var n, from := Area(w, rows), Area(w, h - rows);
    BottomBox(w, h, rows, from, n);
    QuarterIsMicro();
    hide IsMicro, BandWraps, Stretch, TightBox, IsDelta;
    p := Blank(Area(w, h));
    var s := Stretch(from, n);
    q := Marked(p, s);
    MarkedDelta(p, s, w, Rect(0, h - rows, w, h));
    d := Delta(n, n, 0, w * h, Rect(0, h - rows, w, h));
  }

  // ---------- the policy as an object ----------

  class MicroDeltaPolicy {
    var config: Config
    var signature: Option<Signature>
    var deadline: Option<int>
    var deferred: bool
    var repeatGuard: bool
    var held: nat
    var promoted: nat
    var expirySubmitted: nat
    var repeatSuppressed: nat
    var substantiveBypass: nat

    function Abs(): State
      reads this
    {
      State(signature, deadline, deferred, repeatGuard)
    }

    predicate Valid()
      reads this
    {
      config.IsValid() && Coherent(Abs())
    }

    constructor (c: Config)
      ensures Valid() && Abs() == IDLE && config == if c.IsValid() then c else DEFAULTS
      ensures held == promoted == expirySubmitted == repeatSuppressed == substantiveBypass == 0
    {
      config := if c.IsValid() then c else DEFAULTS;
      signature, deadline, deferred, repeatGuard := None, None, false, false;
      held, promoted, expirySubmitted, repeatSuppressed, substantiveBypass := 0, 0, 0, 0, 0;
    }

    method Reconfigure(c: Config) returns (changed: bool)
      requires Valid()
      modifies this`config
      ensures Valid() && (config, Abs()) == Applied(old(config), old(Abs()), Op.Reconfigure(c))
      ensures changed <==> config != old(config)
      ensures changed <==> c.IsValid() && c != old(config)
    {
      if !c.IsValid() { return false; }
      changed := config != c;
      if changed { config := c; }
    }

    /** Alone it may leave the state incoherent, see `ClearingBreaksCoherence`; `Evaluate` repairs that. */
    method ClearExpiredRepeat(now: int)
      modifies this`repeatGuard, this`deadline, this`signature
      ensures Abs() == Cleared(old(Abs()), now)
    {
      if !repeatGuard || deadline.None? || now < deadline.value { return; }
      repeatGuard := false;
      deadline := None;
      signature := None;
    }

    method Evaluate(delta: Option<Delta>, w: int, h: int, now: int) returns (decision: Decision)
      requires Valid()
      requires delta.Some? ==> Counted(delta.value)
      modifies this
      ensures Valid() && config == old(config) && expirySubmitted == old(expirySubmitted)
      ensures (Abs(), decision) == Evaluated(config, old(Abs()), delta, w, h, now)
      ensures held == old(held) + (if decision == Held then 1 else 0)
      ensures promoted == old(promoted) + (if decision == Promoted then 1 else 0)
      ensures repeatSuppressed == old(repeatSuppressed) + (if decision == RepeatSuppressed then 1 else 0)
      ensures substantiveBypass == old(substantiveBypass) + (if decision == Substantive then 1 else 0)
    {
      EvaluationIsCoherent(config, Abs(), Op.Evaluate(delta, w, h, now));
      hide IsMicro, IsEquivalent;
      ClearExpiredRepeat(now);
      if delta.None? || !IsMicro(config, delta.value, w, h) {
        if deferred || repeatGuard { Reset(); }
        substantiveBypass := substantiveBypass + 1;
        return Substantive;
      }
      if signature.None? {
        signature := Some(Signature(delta.value, w, h));
        deadline := Some(now + config.settle);
        deferred := true;
        held := held + 1;
        return Held;
      }
      if !IsEquivalent(config, signature.value, delta.value, w, h) {
        Reset();
        promoted := promoted + 1;
        return Promoted;
      }
      signature := Some(Signature(delta.value, w, h));
      deferred := true;
      if repeatGuard {
        repeatSuppressed := repeatSuppressed + 1;
        return RepeatSuppressed;
      }
      held := held + 1;
      return Held;
    }

    /** Only a deferred candidate has a deadline to wait for. */
    method Deadline() returns (d: Option<int>)
      requires Valid()
      ensures d.Some? <==> deferred
      ensures d.Some? ==> d == Abs().deadline
    {
      d := if deferred then deadline else None;
    }

    method MarkExpirySubmitted(now: int)
      requires Valid()
      modifies this`deferred, this`repeatGuard, this`deadline, this`expirySubmitted
      ensures Valid() && Abs() == ExpiryMarked(config, old(Abs()), now)
      ensures expirySubmitted == old(expirySubmitted) + (if old(deferred) then 1 else 0)
    {
      if !deferred { return; }
      deferred := false;
      repeatGuard := true;
      deadline := Some(now + config.repeat);
      expirySubmitted := expirySubmitted + 1;
    }

    method Reset()
      modifies this`signature, this`deadline, this`deferred, this`repeatGuard
      ensures Abs() == IDLE && (config.IsValid() ==> Valid())
    {
      signature := None;
      deadline := None;
      deferred := false;
      repeatGuard := false;
    }
  }
}
