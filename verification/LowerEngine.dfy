/** The direct lower-engine backend on a colour panel: one serial Submit, its white-then-target pairs, the
    marker guard between them, the submission budget and spacing, and the accepted-target history.
    The vendor engine, the clock and the configuration are inputs; every update call is logged. */
module LowerEngine {
  import opened Bits
  import opened Raster
  import opened Wrappers
  import opened Presentation
  import opened ColorQuality
  import GrayPreference

  // ---------- marker guard ----------

  datatype Progress = Waiting | Started | Drift | Timeout

  predicate CanTrackNext(before: u32) { before < U32_MAX - 1 }

  function CheckStart(before: u32, submitted: u32, displaying: u32, elapsedMs: int, timeoutMs: int): (p: Progress) {
    if !CanTrackNext(before) || submitted != before + 1 || displaying > submitted then Drift
    else if elapsedMs >= timeoutMs then Timeout
    else if displaying == submitted then Started
    else Waiting
  }

  /** A start is reported only for the one image submitted since `before`, still the latest and in time. */
  lemma StartedMeans(before: u32, submitted: u32, displaying: u32, elapsedMs: int, timeoutMs: int)
    ensures CheckStart(before, submitted, displaying, elapsedMs, timeoutMs) == Started <==>
            displaying == submitted == before + 1 && before + 1 < U32_MAX && elapsedMs < timeoutMs
  {
  }

  // ---------- versioned configuration words ----------

  /** A value below m in the low bits, a version above it: m is 2 for a switch, 4 for the gray preference. */
  function Field(word: u64, m: int): int
    requires m == 2 || m == 4
  {
    word % m
  }

  /** The word a successful exchange stores: the version moves on. */
  function Bumped(word: u64, m: int, value: int): (next: u64)
    requires (m == 2 || m == 4) && 0 <= value < m
  {
    var v := Wrap64(word + m);
    v - v % m + value
  }

  function Switched(word: u64, m: int, value: int): (next: u64)
    requires (m == 2 || m == 4) && 0 <= value < m
  {
    if Field(word, m) == value then word else Bumped(word, m, value)
  }

  predicate Requests(requests: seq<int>, m: int) {
    (m == 2 || m == 4) && forall i :: 0 <= i < |requests| ==> 0 <= requests[i] < m
  }

  function SwitchedAll(word: u64, m: int, requests: seq<int>): (next: u64)
    requires Requests(requests, m)
    decreases |requests|
  {
    if requests == [] then word else SwitchedAll(Switched(word, m, requests[0]), m, requests[1..])
  }

  /** How many requests changed the value: each moves the version on by one. */
  function Effective(word: u64, m: int, requests: seq<int>): (n: nat)
    requires Requests(requests, m)
    ensures n <= |requests|
    decreases |requests|
  {
    if requests == [] then 0
    else One(Field(word, m) != requests[0]) + Effective(Switched(word, m, requests[0]), m, requests[1..])
  }

  /** Versions count modulo the number of them. */
  function Versions(m: int): (n: nat)
    requires m == 2 || m == 4
    ensures n > 0
  {
    U64_RANGE / m
  }

  /** A version moved on n times. */
  function MovedOn(version: int, n: nat, m: int): (v: int)
    requires m == 2 || m == 4
  {
    (version + n) % Versions(m)
  }

  lemma MovedOnAdds(version: int, a: nat, b: nat, m: int)
    requires m == 2 || m == 4
    ensures MovedOn(MovedOn(version, a, m), b, m) == MovedOn(version, a + b, m)
  {
    ModAdds(version, a, b, Versions(m));
  }

  lemma {:induction false} VersionCounts(word: u64, m: int, requests: seq<int>)
    requires Requests(requests, m)
    ensures SwitchedAll(word, m, requests) / m == MovedOn(word / m, Effective(word, m, requests), m)
    decreases |requests|
  {
    hide MovedOn, Field, Switched;
    if requests == [] {
      NotMovedOn(word, m);
    } else {
      var next := Switched(word, m, requests[0]);
      SwitchCounts(word, m, requests[0]);
      VersionCounts(next, m, requests[1..]);
      MovedOnAdds(word / m, One(Field(word, m) != requests[0]), Effective(next, m, requests[1..]), m);
    }
  }

  lemma NotMovedOn(word: u64, m: int)
    requires m == 2 || m == 4
    ensures MovedOn(word / m, 0, m) == word / m
  {
    VersionInRange(word, m);
  }

  lemma {:induction false} EffectiveMeans(word: u64, m: int, requests: seq<int>)
    requires Requests(requests, m)
    ensures Effective(word, m, requests) == 0 <==> forall i :: 0 <= i < |requests| ==> requests[i] == Field(word, m)
    ensures Effective(word, m, requests) == 0 ==> SwitchedAll(word, m, requests) == word
    decreases |requests|
  {
    hide Field;
    if requests != [] {
      EffectiveMeans(word, m, requests[1..]);
      assert forall i :: 1 <= i < |requests| ==> requests[i] == requests[1..][i - 1];
    }
  }

  /** Reading the same word twice: the changes between are a multiple of the number of versions, and the value is
      the same. With fewer changes than versions, however many requests changed nothing, every request between asked
      for the value it holds: no change-and-change-back goes unnoticed. */
  lemma {:induction false} SameWordMeansUnchanged(word: u64, m: int, requests: seq<int>)
    requires Requests(requests, m)
    ensures var last := SwitchedAll(word, m, requests);
            last == word <==> Effective(word, m, requests) % Versions(m) == 0 && Field(last, m) == Field(word, m)
    ensures Effective(word, m, requests) < Versions(m) ==>
              (SwitchedAll(word, m, requests) == word <==>
               forall i :: 0 <= i < |requests| ==> requests[i] == Field(word, m))
  {
    var last, n := SwitchedAll(word, m, requests), Effective(word, m, requests);
    VersionCounts(word, m, requests);
    EffectiveMeans(word, m, requests);
    VersionInRange(word, m);
    VersionInRange(last, m);
    ModReturns(word / m, n, Versions(m));
    hide Versions;
    if n < Versions(m) { SmallModulus(n, Versions(m)); }
  }

  lemma VersionInRange(word: u64, m: int)
    requires m == 2 || m == 4
    ensures 0 <= word / m < Versions(m) && (word / m) % Versions(m) == word / m
    ensures word == word / m * m + Field(word, m)
  {
    if m == 2 { assert word / 2 < Versions(2); } else { assert word / 4 < Versions(4); }
    SmallModulus(word / m, Versions(m));
  }

  lemma SmallModulus(n: int, d: int)
    requires 0 <= n < d
    ensures n % d == n
  {
  }

  lemma ModAdds(a: int, b: int, c: int, d: int)
    requires d > 0
    ensures ((a + b) % d + c) % d == (a + (b + c)) % d
  {
    var q, r := (a + b) / d, (a + b) % d;
    var k, t := (r + c) / d, (r + c) % d;
    assert a + (b + c) == (q + k) * d + t;
    DivUnique(q + k, t, d);
  }

  lemma ModReturns(v: int, n: int, d: int)
    requires 0 <= v < d && n >= 0
    ensures (v + n) % d == v <==> n % d == 0
  {
    var q, r := n / d, n % d;
    if v + r < d { RemainderIs(q, v + r, d, v + n); } else { RemainderIs(q + 1, v + r - d, d, v + n); }
  }

  lemma RemainderIs(q: int, r: int, d: int, n: int)
    requires 0 <= r < d && n == q * d + r
    ensures n % d == r
  {
    DivUnique(q, r, d);
  }

  lemma SwitchCounts(word: u64, m: int, value: int)
    requires (m == 2 || m == 4) && 0 <= value < m
    ensures var next := Switched(word, m, value);
            && next / m == MovedOn(word / m, One(Field(word, m) != value), m) && Field(next, m) == value
            && (Field(word, m) == value ==> next == word)
  {
    VersionInRange(word, m);
    BumpHolds(word, m, value);
    if Field(word, m) != value { BumpCounts(word, m, value); }
  }

  lemma BumpCounts(word: u64, m: int, value: int)
    requires (m == 2 || m == 4) && 0 <= value < m
    ensures Bumped(word, m, value) / m == (word / m + 1) % Versions(m)
  {
    var q, r, v := word / m, word % m, Wrap64(word + m);
    assert v == if word + m < U64_RANGE then word + m else word + m - U64_RANGE;
    assert Versions(m) * m == U64_RANGE;
    VersionInRange(word, m);
    hide Wrap64, Versions;
    var next := if q + 1 < Versions(m) then q + 1 else 0;
    assert v == next * m + r;
    RemainderIs(next, r, m, v);
    DivUnique(next, value, m);
    RemainderIs(if next == 0 then 1 else 0, next, Versions(m), q + 1);
  }

  lemma AlignedTwo(v: int, value: int)
    requires 0 <= v && 0 <= value < 2
    ensures (v - v % 2 + value) % 2 == value
  {
  }

  lemma AlignedFour(v: int, value: int)
    requires 0 <= v && 0 <= value < 4
    ensures (v - v % 4 + value) % 4 == value
  {
  }

  lemma BumpHolds(word: u64, m: int, value: int)
    requires (m == 2 || m == 4) && 0 <= value < m
    ensures Field(Bumped(word, m, value), m) == value
  {
    var v := Wrap64(word + m);
    hide Wrap64;
    if m == 2 { AlignedTwo(v, value); } else { AlignedFour(v, value); }
  }

  class ConfigWord {
    var word: u64

    /** The load and the exchange loop. `others` are the words other threads store before each failed exchange. */
    method Set(m: int, value: int, others: seq<u64>)
      requires (m == 2 || m == 4) && 0 <= value < m
      modifies this
      ensures exists k: nat :: k <= |others| && word == Switched(([old(word)] + others)[k], m, value)
      ensures Field(word, m) == value
    {
      hide Bumped, Field;
      var seen, k := word, 0;
      while Field(seen, m) != value
        invariant 0 <= k <= |others| && seen == word == ([old(word)] + others)[k]
        decreases |others| - k
      {
        if k == |others| {
          BumpHolds(seen, m, value);
          word := Bumped(seen, m, value);
          return;
        }
        word := others[k];
        seen := word;
        k := k + 1;
      }
    }
  }

  // ---------- update calls ----------

  const ACCEPTED := -3
  const HARD_LIMIT := 24
  const FULL_RECORD := 34
  const DIFFERENTIAL_RECORD := 4

  /** One call of the vendor's update entry. `pixels` are the colour-treated input of the mapping, `raw` the
      plane they came from. For a white call `marker` is the submitted marker read before it; for the target
      of a pair it is the one read just before the target, and `displayed` the displaying marker that
      confirmed white's start. */
  datatype Call = Call(
    white: bool, paired: bool, sequence: int, raw: seq<byte>, pixels: seq<byte>,
    quality: u64, gray: u64, vivid: u64, mode: int, start: int, finish: int, result: int, marker: u32, displayed: u32)

  datatype BackendState = Stopped | Initialized | Submitted | Poisoned

  function Preference(word: u64): GrayPreference.Preference {
    if word % 4 == 1 then GrayPreference.Balanced
    else if word % 4 == 2 then GrayPreference.Stronger
    else GrayPreference.Off
  }

  /** What the colour words make of a raw plane. */
  function TreatedPixels(raw: seq<byte>, gray: u64, vivid: u64): (pixels: seq<byte>)
    ensures |pixels| == |raw|
  {
    var faded := GrayPreference.GrayTreated(Preference(gray), raw);
    if vivid % 2 == 1 then GrayPreference.VividBuffer(faded) else faded
  }

  /** Consecutive calls keep the minimum gap, from return to call. */
  ghost predicate SpacedCalls(log: seq<Call>, gap: int) {
    && (forall i :: 0 <= i < |log| ==> log[i].start <= log[i].finish)
    && (forall i :: 0 <= i < |log| - 1 ==> log[i].finish + gap <= log[i + 1].start)
  }

  /** The target was sent only after white had started, with white still the latest image. */
  predicate Guarded(white: Call, target: Call) {
    && white.white && white.result == ACCEPTED && white.sequence == target.sequence && white.raw == target.raw
    && CanTrackNext(white.marker) && target.marker == target.displayed == white.marker + 1
  }

  /** Every paired target directly follows its white, and nothing but its target follows a white. */
  ghost predicate PairsGuarded(log: seq<Call>) {
    && (forall i :: 0 <= i < |log| && log[i].paired && !log[i].white ==> i > 0 && Guarded(log[i - 1], log[i]))
    && (forall i :: 0 <= i < |log| - 1 && log[i].white ==> log[i + 1].paired && !log[i + 1].white)
    && (forall i :: 0 <= i < |log| && log[i].white ==> log[i].paired && log[i].mode == 3)
  }

  ghost predicate AllAccepted(log: seq<Call>) {
    forall i :: 0 <= i < |log| ==> log[i].result == ACCEPTED
  }

  /** The history is the treated target of the last call, under the words stored since. */
  predicate HistoryIsLastTarget(history: seq<byte>, log: seq<Call>, quality: u64, gray: u64, vivid: u64) {
    history != [] ==>
      && log != [] && quality % 2 == 1
      && var last := log[|log| - 1];
         && !last.white && last.result == ACCEPTED && last.pixels == history
         && last.pixels == TreatedPixels(last.raw, gray, vivid)
         && last.quality == quality && last.gray == gray && last.vivid == vivid
  }

  ghost predicate CallsSound(log: seq<Call>, gap: int) {
    && SpacedCalls(log, gap) && PairsGuarded(log)
    && (forall i :: 0 <= i < |log| && !log[i].white ==>
      log[i].pixels == TreatedPixels(log[i].raw, log[i].gray, log[i].vivid))
  }

  lemma WhiteCallSound(log: seq<Call>, gap: int, c: Call)
    requires CallsSound(log, gap) && c.white && c.paired && c.mode == 3 && c.start <= c.finish
    requires log != [] ==> log[|log| - 1].finish + gap <= c.start && !log[|log| - 1].white
    ensures CallsSound(log + [c], gap)
  {
    hide TreatedPixels, Guarded;
  }

  lemma TargetCallSound(log: seq<Call>, gap: int, c: Call)
    requires CallsSound(log, gap) && !c.white && c.start <= c.finish
    requires log != [] ==> log[|log| - 1].finish + gap <= c.start
    requires if c.paired then log != [] && Guarded(log[|log| - 1], c) else log == [] || !log[|log| - 1].white
    requires c.pixels == TreatedPixels(c.raw, c.gray, c.vivid)
    ensures CallsSound(log + [c], gap)
  {
    hide TreatedPixels, Guarded;
  }

  /** The newest accepted target is what the history may become. */
  lemma TargetIsHistory(log: seq<Call>, frame: Frame, raw: seq<byte>, pixels: seq<byte>, given: Inputs, mode: int,
      paired: bool)
    requires log != [] && IsTargetCall(log[|log| - 1], frame, raw, pixels, given, mode, paired)
    requires pixels == TreatedPixels(raw, given.gray, given.vivid)
    ensures var history := if given.quality % 2 == 1 && frame.sleepEpoch == 0 then pixels else [];
            HistoryIsLastTarget(history, log, given.quality, given.gray, given.vivid)
  {
    hide TreatedPixels;
  }

  /** A frame with the plane and the words of the last accepted target is sent alone: nothing is whitened. */
  lemma {:induction false} RepeatNeedsNoWhite(history: seq<byte>, log: seq<Call>, frame: Frame, given: Inputs)
    requires HistoryIsLastTarget(history, log, given.quality, given.gray, given.vivid) && history != []
    requires frame.refresh != WhiteThenTarget && frame.refresh != ColorCleanup
    ensures WhitePass(frame, history, TreatedPixels(log[|log| - 1].raw, given.gray, given.vivid), given).0 == 0
  {
    AcceptedNeedsNoWhite(history, given.thresholds);
    hide TreatedPixels, CoverCount, Intermediate;
  }

  /** The panel is never driven faster than the gap: k calls after another, at least k gaps have passed. */
  lemma {:induction false} RateBound(log: seq<Call>, gap: int, i: nat, j: nat)
    requires SpacedCalls(log, gap) && i < j < |log|
    ensures log[j].start >= log[i].finish + (j - i) * gap
    decreases j
  {
    if j > i + 1 {
      RateBound(log, gap, i, j - 1);
      assert log[j - 1].finish + gap <= log[j].start;
      assert (j - i) * gap == (j - 1 - i) * gap + gap;
    } else {
      assert log[i].finish + gap <= log[i + 1].start;
    }
  }

  lemma CallsAccepted(log: seq<Call>, calls: seq<Call>, frame: Frame, raw: seq<byte>, pixels: seq<byte>,
      white: seq<byte>, given: Inputs, mode: int)
    requires AllAccepted(log) && 1 <= |calls| <= 2
    requires IsTargetCall(calls[|calls| - 1], frame, raw, pixels, given, mode, |calls| == 2)
    requires |calls| == 2 ==> IsWhiteCall(calls[0], frame, raw, white, given)
    ensures AllAccepted(log + calls) && !calls[|calls| - 1].white
  {
  }

  // ---------- one frame ----------

  datatype Envelope = Envelope(mode: int, flag1: int, flag2: int)

  function SelectEnvelope(mode: int): Option<Envelope> {
    if mode == FULL_RECORD then Some(Envelope(2, 1, 1))
    else if mode == DIFFERENTIAL_RECORD then Some(Envelope(3, 0, 0))
    else None
  }

  /** A gray sleep frame as opaque RGBA. */
  function Expanded(gray: seq<byte>): (rgba: seq<byte>)
    ensures |rgba| == 4 * |gray|
  {
    seq(4 * |gray|, i requires 0 <= i < 4 * |gray| =>
      if i % 4 == 3 then 255 else gray[i / 4] / 16 * 16 + gray[i / 4] / 16)
  }

  /** The raw colour plane of a frame. `plane` is the captured buffer's rows, when it could be mapped. */
  function RawPlane(frame: Frame, plane: Option<seq<byte>>, bytes: int): (raw: Option<seq<byte>>) {
    if frame.compose.Some? then plane
    else if frame.sleepRgba.Some? then
      if frame.sleepEpoch == 0 || |frame.sleepRgba.value| != bytes then None else frame.sleepRgba
    else if frame.sleepEpoch == 0 || frame.grayscale.None? || frame.grayscale.value == [] then None
    else Some(Expanded(frame.grayscale.value))
  }

  /** What one Submit reads from its surroundings besides the engine and the clock. */
  datatype Inputs = Inputs(
    enabled: bool, quality: u64, gray: u64, vivid: u64, plane: Option<seq<byte>>, thresholds: Thresholds,
    gapBefore: int, gapBetween: int, gapAfter: int)

  predicate IsDifferential(frame: Frame) {
    if frame.request != 0 then frame.refresh != Full else frame.mode == DIFFERENTIAL_RECORD
  }

  /** The engine's update mode for the target. */
  function TargetMode(frame: Frame): int { if IsDifferential(frame) then 3 else 2 }

  /** The white pre-pass chosen for a target: how many pixels, and the image that goes first. */
  function WhitePass(frame: Frame, history: seq<byte>, pixels: seq<byte>, given: Inputs): (r: (nat, seq<byte>)) {
    if frame.refresh == WhiteThenTarget then (|pixels| / 4, seq(|pixels|, _ => 255))
    else if frame.sleepEpoch == 0
      && (frame.refresh == ColorCleanup || (given.quality % 2 == 1 && frame.request == 0 && IsDifferential(frame))) then
      var cleanup := frame.refresh == ColorCleanup;
      (CoverCount(history, pixels, given.thresholds, cleanup), Intermediate(history, pixels, given.thresholds, cleanup))
    else (0, [])
  }

  predicate AutomaticPair(frame: Frame, given: Inputs) {
    given.quality % 2 == 1 && frame.request == 0 && frame.refresh == NoRefresh && frame.sleepEpoch == 0
      && IsDifferential(frame)
  }

  /** The vendor's answers by tick: every read or sleep is one tick and may take any time. */
  datatype World = World(delay: nat -> nat, submitted: nat -> u32, displaying: nat -> u32, mapping: nat -> int,
      update: nat -> int)

  function IntervalMs(configured: int): (ms: int)
    ensures 50 <= ms <= 5000
  {
    Clamp(configured, 50, 5000)
  }

  /** Continuous mode has no budget within any counter range; the finite one is at most the hard limit. */
  function ActiveLimit(continuous: bool, configured: int): (limit: int)
    ensures limit >= 1 && (!continuous ==> limit <= HARD_LIMIT)
  {
    if continuous then U64_MAX else Clamp(configured, 1, HARD_LIMIT)
  }

  class LowerEngineBackend {
    const world: World
    const width: nat
    const height: nat
    /** Properties that stay fixed over a run. */
    const continuous: bool
    const limitProperty: int
    const intervalProperty: int
    var tick: nat
    var now: int
    var state: BackendState
    var submissions: nat
    var rejectedFrames: nat
    var disarmedFrames: nat
    var lastSubmission: int
    var history: seq<byte>
    var qualityConfig: u64
    var grayConfig: u64
    var vividConfig: u64
    ghost var log: seq<Call>

    function Gap(): int { IntervalMs(intervalProperty) * MS }

    function Limit(): int { ActiveLimit(continuous, limitProperty) }

    /** An initialized backend has issued only accepted calls, the last one no white, and may call again
        only after `lastSubmission`. */
    ghost predicate Settled()
      reads this
    {
      && AllAccepted(log)
      && (log != [] ==> !log[|log| - 1].white && log[|log| - 1].finish <= lastSubmission)
      && HistoryIsLastTarget(history, log, qualityConfig, grayConfig, vividConfig)
    }

    ghost predicate Valid()
      reads this
    {
      && CallsSound(log, Gap()) && submissions == |log| <= Limit()
      && (state == Initialized ==> Settled())
      && (state == Stopped ==> log == [] && history == [])
    }

    constructor (world: World, width: nat, height: nat, continuous: bool, limitProperty: int, intervalProperty: int)
      ensures Valid() && log == [] && state == Stopped
    {
      this.world, this.width, this.height := world, width, height;
      this.continuous, this.limitProperty, this.intervalProperty := continuous, limitProperty, intervalProperty;
      tick, now, state, submissions, rejectedFrames, disarmedFrames, lastSubmission := 0, 0, Stopped, 0, 0, 0, 0;
      history, qualityConfig, grayConfig, vividConfig, log := [], 0, 0, 0, [];
    }

    /** Initialization of the vendor engine succeeds or poisons the backend for good. */
    method Initialize(ok: bool) returns (initialized: bool)
      requires Valid()
      modifies this`state
      ensures Valid() && initialized == (old(state) == Stopped && ok)
      ensures state == if old(state) != Stopped then old(state) else if ok then Initialized else Poisoned
    {
      if state != Stopped { return false; }
      state := if ok then Initialized else Poisoned;
      return ok;
    }

    // ---------- clock and markers ----------

    method ReadClock() returns (t: int)
      modifies this`tick, this`now
      ensures t == now >= old(now)
    {
      now := now + world.delay(tick);
      tick := tick + 1;
      return now;
    }

    method SleepUntil(t: int)
      modifies this`tick, this`now
      ensures now >= old(now) && now >= t
    {
      now := Max(now, t) + world.delay(tick);
      tick := tick + 1;
    }

    method SubmittedMarker() returns (m: u32)
      modifies this`tick
    {
      m := world.submitted(tick);
      tick := tick + 1;
    }

    method DisplayingMarker() returns (m: u32)
      modifies this`tick
    {
      m := world.displaying(tick);
      tick := tick + 1;
    }

    /** Polls until the image submitted after `before` is seen started, or the guard gives the sequence up. */
    method WaitForMarkerStart(before: u32, acceptedAt: int) returns (started: bool, displayed: u32)
      requires acceptedAt <= now
      modifies this`tick, this`now, this`state, this`history
      ensures now >= old(now)
      ensures started ==>
        CanTrackNext(before) && displayed == before + 1 && state == old(state) && history == old(history)
      ensures !started ==> state == Poisoned && history == []
    {
      while true
        invariant now >= old(now) && state == old(state) && history == old(history)
        decreases acceptedAt + 5000 * MS - now
      {
        var submitted := SubmittedMarker();
        var displaying := DisplayingMarker();
        var t := ReadClock();
        var progress := CheckStart(before, submitted, displaying, (t - acceptedAt) / MS, 5000);
        if progress != Waiting {
          if progress == Started { return true, displaying; }
          state := Poisoned;
          history := [];
          return false, 0;
        }
        SleepUntil(now + 2 * MS);
      }
    }

    // ---------- Submit, section by section ----------

    predicate FullInput(frame: Frame) {
      && frame.grayscale.Some? && |frame.grayscale.value| == width * height
      && (frame.compose.Some? || frame.sleepEpoch != 0)
      && frame.dirty == Rect(0, 0, width, height) && SelectEnvelope(frame.mode).Some?
      && frame.flag == 0 && !frame.handwriting
    }

    /** State, input, arming, budget and rate. A refused frame changes nothing but counters, except that a
        spent hard budget closes the backend. */
    method Admit(frame: Frame, enabled: bool) returns (ok: bool)
      requires Valid()
      modifies this`tick, this`now, this`state, this`rejectedFrames, this`disarmedFrames
      ensures now >= old(now)
      ensures ok ==>
        && state == old(state) == Initialized && FullInput(frame) && enabled && submissions < Limit()
        && (submissions != 0 ==> now - lastSubmission >= Gap())
      ensures state == old(state)
        || (old(state) == Initialized && state == Submitted && !continuous && submissions == HARD_LIMIT)
      ensures old(state) == Initialized && FullInput(frame) && enabled && submissions < Limit() && !ok ==>
        submissions != 0 && now - lastSubmission < Gap()
    {
      if state != Initialized || !FullInput(frame) {
        rejectedFrames := rejectedFrames + 1;
        return false;
      }
      if !enabled {
        disarmedFrames := disarmedFrames + 1;
        return false;
      }
      if !continuous && submissions >= HARD_LIMIT {
        state := Submitted;
        rejectedFrames := rejectedFrames + 1;
        return false;
      }
      if submissions >= Limit() { return false; }
      var t := ReadClock();
      if submissions != 0 && t - lastSubmission < Gap() {
        rejectedFrames := rejectedFrames + 1;
        return false;
      }
      return true;
    }

    /** Any changed word, and any sleep frame, forgets the history. */
    method LoadConfig(frame: Frame, given: Inputs)
      modifies this`history, this`qualityConfig, this`grayConfig, this`vividConfig
      ensures qualityConfig == given.quality && grayConfig == given.gray && vividConfig == given.vivid
      ensures history == old(if given.quality != qualityConfig || given.gray != grayConfig || given.vivid != vividConfig
                                || frame.sleepEpoch != 0 then [] else history)
    {
      if given.quality != qualityConfig || given.gray != grayConfig || given.vivid != vividConfig
        || frame.sleepEpoch != 0 {
        history := [];
        qualityConfig, grayConfig, vividConfig := given.quality, given.gray, given.vivid;
      }
    }

    /** The raw plane copied out and treated in place. */
    method Treat(raw: seq<byte>, gray: u64, vivid: u64) returns (pixels: seq<byte>)
      ensures pixels == TreatedPixels(raw, gray, vivid)
    {
      var input := new byte[|raw|](i requires 0 <= i < |raw| => raw[i]);
      assert input[..] == raw;
      GrayPreference.ApplyGrayPreference(input, Preference(gray), true);
      if vivid % 2 == 1 { GrayPreference.ApplyVividColor(input); }
      return input[..];
    }

    method ChooseWhite(frame: Frame, pixels: seq<byte>, given: Inputs) returns (count: nat, white: seq<byte>)
      requires given.quality == qualityConfig
      ensures (count, white) == WhitePass(frame, history, pixels, given)
    {
      if frame.refresh == WhiteThenTarget {
        return |pixels| / 4, seq(|pixels|, _ => 255);
      }
      if frame.sleepEpoch == 0
         && (frame.refresh == ColorCleanup || (given.quality % 2 == 1 && frame.request == 0 && IsDifferential(frame))) {
        var store := new ColorQualityHistory();
        store.previous := history;
        count, white := store.Prepare(pixels, given.thresholds, frame.refresh == ColorCleanup);
        return;
      }
      return 0, [];
    }

    method Map() returns (result: int)
      modifies this`tick
      ensures result == world.mapping(old(tick))
    {
      result := world.mapping(tick);
      tick := tick + 1;
    }

    method Update() returns (result: int)
      modifies this`tick, this`now
      ensures now >= old(now) && result == world.update(old(tick))
    {
      result := world.update(tick);
      now := now + world.delay(tick);
      tick := tick + 1;
    }

    /** Maps and submits the white image. A failure after the call was issued poisons the backend. */
    method SendWhite(frame: Frame, raw: seq<byte>, white: seq<byte>, given: Inputs, before: int)
      returns (sent: bool, marker: u32, ghost call: Call)
      requires Valid() && state == Initialized && submissions + 2 <= Limit()
      requires submissions != 0 ==> now - lastSubmission >= Gap()
      modifies this`tick, this`now, this`state, this`submissions, this`lastSubmission, this`log
      ensures now >= old(now)
      ensures CallsSound(log, Gap()) && submissions == |log| <= Limit()
      ensures sent ==>
        && state == Initialized && log == old(log) + [call] && lastSubmission == call.finish <= now
        && IsWhiteCall(call, frame, raw, white, given) && call.marker == marker && CanTrackNext(marker)
        && (AutomaticPair(frame, given) && old(submissions) != 0 ==> call.start >= old(lastSubmission) + before * MS)
      ensures !sent ==> state == Poisoned && (log == old(log) || log == old(log) + [call])
    {
      hide TreatedPixels, Guarded;
      marker := 0;
      call := Call(true, true, frame.sequence, raw, white, given.quality, given.gray, given.vivid, 3, 0, 0, 0, 0, 0);
      var mapping := Map();
      if mapping != 0 {
        state := Poisoned;
        return false, 0, call;
      }
      if AutomaticPair(frame, given) && submissions != 0 { SleepUntil(lastSubmission + before * MS); }
      var start := ReadClock();
      marker := SubmittedMarker();
      if !CanTrackNext(marker) {
        state := Poisoned;
        return false, marker, call;
      }
      var result := Update();
      var finish := ReadClock();
      call := call.(start := start, finish := finish, result := result, marker := marker);
      WhiteCallSound(log, Gap(), call);
      log := log + [call];
      submissions := submissions + 1;
      lastSubmission := finish;
      if result != ACCEPTED {
        state := Poisoned;
        return false, marker, call;
      }
      return true, marker, call;
    }

    /** Submits the mapped target and records it as a paired or a single call. */
    method SendTarget(frame: Frame, raw: seq<byte>, pixels: seq<byte>, given: Inputs, mode: int, paired: bool,
        displayed: u32)
      returns (ok: bool, finish: int, ghost call: Call)
      requires CallsSound(log, Gap()) && submissions == |log| < Limit() && state == Initialized
      requires pixels == TreatedPixels(raw, given.gray, given.vivid)
      requires if paired then PairOpen(frame, raw, displayed) else log == [] || !log[|log| - 1].white
      requires log != [] ==> log[|log| - 1].finish + Gap() <= now
      modifies this`tick, this`now, this`state, this`submissions, this`history, this`log
      ensures now >= old(now) && finish <= now
      ensures CallsSound(log, Gap()) && submissions == |log| <= Limit()
      ensures ok ==>
        && state == Initialized && history == old(history) && log == old(log) + [call] && call.finish == finish
        && IsTargetCall(call, frame, raw, pixels, given, mode, paired) && (paired ==> call.marker == displayed)
        && call.start >= old(now)
      ensures !ok && !paired ==> !Obliging()
      ensures !ok ==> state == Poisoned && (log == old(log) || log == old(log) + [call])
    {
      hide TreatedPixels;
      call := Call(false, paired, frame.sequence, raw, pixels, given.quality, given.gray, given.vivid, mode, 0, 0, 0,
        0, displayed);
      var start := ReadClock();
      var marker: u32 := 0;
      if paired { marker := SubmittedMarker(); }
      if paired && (marker != displayed || !CanTrackNext(marker)) {
        state := Poisoned;
        history := [];
        return false, now, call;
      }
      var result := Update();
      finish := ReadClock();
      call := call.(start := start, finish := finish, result := result, marker := marker);
      TargetCallSound(log, Gap(), call);
      log := log + [call];
      submissions := submissions + 1;
      if result != ACCEPTED {
        state := Poisoned;
        return false, finish, call;
      }
      return true, finish, call;
    }

    /** Everything between admission and the first engine call: words, plane, treatment, white pre-pass. */
    method PrepareTarget(frame: Frame, given: Inputs)
        returns (raw: Option<seq<byte>>, pixels: seq<byte>, count: nat, white: seq<byte>)
      requires FullInput(frame)
      modifies this`rejectedFrames, this`history, this`qualityConfig, this`grayConfig, this`vividConfig
      ensures qualityConfig == given.quality && grayConfig == given.gray && vividConfig == given.vivid
      ensures history == old(KeptHistory(frame, given))
      ensures raw == if frame.request != 0 && frame.sleepEpoch != 0 then None
        else RawPlane(frame, given.plane, 4 * (width * height))
      ensures raw.Some? ==>
        && pixels == TreatedPixels(raw.value, given.gray, given.vivid)
        && (count, white) == WhitePass(frame, history, pixels, given)
    {
      hide TreatedPixels, WhitePass;
      LoadConfig(frame, given);
      if frame.request != 0 && frame.sleepEpoch != 0 { return None, [], 0, []; }
      raw := RawPlane(frame, given.plane, 4 * (width * height));
      if raw.None? {
        rejectedFrames := rejectedFrames + 1;
        return None, [], 0, [];
      }
      pixels := Treat(raw.value, given.gray, given.vivid);
      count, white := ChooseWhite(frame, pixels, given);
    }

    /** The history after the configuration check of this frame. */
    function KeptHistory(frame: Frame, given: Inputs): seq<byte>
      reads this
    {
      if given.quality != qualityConfig || given.gray != grayConfig || given.vivid != vividConfig
        || frame.sleepEpoch != 0
        then [] else history
    }

    /** White, its gap, the guard, the target, and the guard again. */
    method SubmitPair(frame: Frame, raw: seq<byte>, pixels: seq<byte>, white: seq<byte>, given: Inputs, mode: int)
      returns (ok: bool, finish: int, ghost first: Call, ghost second: Call)
      requires Valid() && state == Initialized && submissions + 2 <= Limit()
      requires submissions != 0 ==> now - lastSubmission >= Gap()
      requires pixels == TreatedPixels(raw, given.gray, given.vivid)
      modifies this`tick, this`now, this`state, this`submissions, this`rejectedFrames, this`lastSubmission,
        this`history, this`log
      ensures now >= old(now) && finish <= now
      ensures CallsSound(log, Gap()) && submissions == |log| <= Limit()
      ensures ok ==>
        && state == Initialized && history == old(history) && log == old(log) + [first, second]
        && second.finish == finish
        && IsWhiteCall(first, frame, raw, white, given) && IsTargetCall(second, frame, raw, pixels, given, mode, true)
        && (AutomaticPair(frame, given) ==>
              && second.start >= first.finish + Clamp(given.gapBetween, 0, 1000) * MS
              && (old(submissions) != 0 ==> first.start >= old(lastSubmission) + Clamp(given.gapBefore, 0, 1000) * MS))
      ensures !ok ==>
        state == Poisoned && (log == old(log) || log == old(log) + [first] || log == old(log) + [first, second])
    {
      hide CallsSound, TreatedPixels, HistoryIsLastTarget;
      var sent, marker;
      sent, marker, first := SendWhite(frame, raw, white, given, Clamp(given.gapBefore, 0, 1000));
      second := first;
      if !sent { return false, now, first, second; }
      var mapping := Map();
      if mapping != 0 {
        rejectedFrames := rejectedFrames + 1;
        state := Poisoned;
        return false, now, first, second;
      }
      SleepUntil(lastSubmission + Max(Gap(),
        (if AutomaticPair(frame, given) then Clamp(given.gapBetween, 0, 1000) else 0) * MS));
      var started, displayed := WaitForMarkerStart(marker, lastSubmission);
      if !started { return false, now, first, second; }
      ok, finish, second := SendTarget(frame, raw, pixels, given, mode, true, displayed);
      if !ok { return; }
      assert log == old(log) + [first, second];
      started, displayed := WaitForMarkerStart(displayed, finish);
      ok := started;
    }

    /** The vendor maps and accepts everything. */
    ghost predicate Obliging() { forall t: nat :: world.mapping(t) == 0 && world.update(t) == ACCEPTED }

    ghost function WhiteCount(frame: Frame, given: Inputs): nat
      reads this
    {
      var raw := RawPlane(frame, given.plane, 4 * (width * height));
      if raw.None? then 0
      else WhitePass(frame, KeptHistory(frame, given), TreatedPixels(raw.value, given.gray, given.vivid), given).0
    }

    /** Everything but the rate allows the frame: state, input, arming, one plane, and room for its calls. */
    ghost predicate Eligible(frame: Frame, given: Inputs)
      reads this
    {
      && state == Initialized && FullInput(frame) && given.enabled && submissions < Limit()
      && !(frame.request != 0 && frame.sleepEpoch != 0)
      && RawPlane(frame, given.plane, 4 * (width * height)).Some?
      && (WhiteCount(frame, given) != 0 ==> submissions + 2 <= Limit())
    }

    /** The pair or the single target; a pair needs room for both calls. */
    method Issue(frame: Frame, raw: seq<byte>, pixels: seq<byte>, count: nat, white: seq<byte>, given: Inputs,
        mode: int)
      returns (ok: bool, finish: int, ghost calls: seq<Call>)
      requires Valid() && state == Initialized && submissions < Limit()
      requires submissions != 0 ==> now - lastSubmission >= Gap()
      requires pixels == TreatedPixels(raw, given.gray, given.vivid)
      modifies this`tick, this`now, this`state, this`submissions, this`rejectedFrames, this`lastSubmission,
        this`history, this`log
      ensures now >= old(now) && finish <= now
      ensures CallsSound(log, Gap()) && submissions == |log| <= Limit()
      ensures old(log) <= log && (ok && count != 0 ==> |old(log)| + 2 <= Limit())
      ensures !ok ==>
        || (state == Poisoned && (count == 0 ==> !Obliging()))
        || (count != 0 && submissions + 2 > Limit() && log == old(log) && state == old(state) && history == old(history)
            && lastSubmission == old(lastSubmission))
      ensures ok ==>
        && state == Initialized && log == old(log) + calls && |calls| == (if count == 0 then 1 else 2)
        && calls[|calls| - 1].finish == finish
        && IsTargetCall(calls[|calls| - 1], frame, raw, pixels, given, mode, count != 0)
        && (count != 0 ==> IsWhiteCall(calls[0], frame, raw, white, given))
    {
      hide CallsSound, TreatedPixels, HistoryIsLastTarget, IsTargetCall, IsWhiteCall, Guarded;
      calls := [];
      if count != 0 {
        if submissions + 2 > Limit() { return false, now, []; }
        ghost var first, second;
        ok, finish, first, second := SubmitPair(frame, raw, pixels, white, given, mode);
        calls := [first, second];
      } else {
        var mapping := Map();
        if mapping != 0 {
          rejectedFrames := rejectedFrames + 1;
          state := Poisoned;
          return false, now, [];
        }
        ghost var only;
        ok, finish, only := SendTarget(frame, raw, pixels, given, mode, false, 0);
        calls := [only];
      }
    }

    method Submit(frame: Frame, given: Inputs) returns (accepted: bool)
      requires Valid() && (given.plane.Some? ==> |given.plane.value| == 4 * (width * height))
      modifies this
      ensures Valid() && now >= old(now)
      ensures old(state) != Initialized ==> !accepted && state == old(state) && log == old(log)
      ensures !accepted ==> (log == old(log) && (state == old(state) || state == Submitted)) || state == Poisoned
      ensures accepted ==> Issued(frame, given, old(KeptHistory(frame, given)), old(log)) && old(Eligible(frame, given))
      ensures old(Eligible(frame, given) && (submissions != 0 ==> now - lastSubmission >= Gap())) ==>
        accepted || (state == Poisoned && (old(WhiteCount(frame, given)) == 0 ==> !Obliging()))
      ensures old(log) <= log
    {
      hide CallsSound, TreatedPixels, HistoryIsLastTarget, WhitePass, RawPlane, IsWhiteCall, TargetMode;
      var admitted := Admit(frame, given.enabled);
      if !admitted { return false; }
      KeptIsLastTarget(frame, given);
      ghost var due := WhiteCount(frame, given);
      var raw, pixels, count, white := PrepareTarget(frame, given);
      if raw.None? { return false; }
      assert count == due;
      ghost var before := log;
      var ok, finish;
      ghost var calls;
      ok, finish, calls := Issue(frame, raw.value, pixels, count, white, given, TargetMode(frame));
      if !ok { return false; }
      CallsAccepted(before, calls, frame, raw.value, pixels, white, given, TargetMode(frame));
      hide IsTargetCall;
      Complete(frame, raw.value, pixels, given, TargetMode(frame), count != 0, finish);
      return true;
    }

    /** Bookkeeping behind an accepted target: history, settling guard, rate and budget. */
    method Complete(frame: Frame, raw: seq<byte>, pixels: seq<byte>, given: Inputs, mode: int, paired: bool,
        finish: int)
      requires CallsSound(log, Gap()) && submissions == |log| <= Limit() && state == Initialized && AllAccepted(log)
      requires log != [] && log[|log| - 1].finish == finish <= now
      requires IsTargetCall(log[|log| - 1], frame, raw, pixels, given, mode, paired)
      requires pixels == TreatedPixels(raw, given.gray, given.vivid)
      requires qualityConfig == given.quality && grayConfig == given.gray && vividConfig == given.vivid
      modifies this`tick, this`now, this`state, this`lastSubmission, this`history
      ensures Valid() && now >= old(now)
      ensures history == if given.quality % 2 == 1 && frame.sleepEpoch == 0 then pixels else []
      ensures state == if !continuous && |log| == HARD_LIMIT then Submitted else Initialized
      ensures paired && AutomaticPair(frame, given) ==> lastSubmission >= finish + Clamp(given.gapAfter, 0, 1000) * MS
    {
      hide CallsSound, TreatedPixels, HistoryIsLastTarget;
      TargetIsHistory(log, frame, raw, pixels, given, mode, paired);
      history := if given.quality % 2 == 1 && frame.sleepEpoch == 0 then pixels else [];
      if paired && AutomaticPair(frame, given) { SleepUntil(finish + Clamp(given.gapAfter, 0, 1000) * MS); }
      lastSubmission := ReadClock();
      if !continuous && submissions == HARD_LIMIT { state := Submitted; }
    }

    /** Any number of frames: the invariant holds throughout, calls only accumulate, and a backend that is
        not Initialized, poisoned ones included, never calls the engine again. */
    method SubmitAll(frames: seq<Frame>, inputs: seq<Inputs>)
      requires Valid() && |frames| == |inputs|
      requires forall i :: 0 <= i < |inputs| && inputs[i].plane.Some? ==>
        |inputs[i].plane.value| == 4 * (width * height)
      modifies this
      ensures Valid() && old(log) <= log
      ensures old(state) != Initialized ==> state == old(state) && log == old(log)
    {
      hide CallsSound, HistoryIsLastTarget;
      for i := 0 to |frames|
        invariant Valid() && old(log) <= log
        invariant old(state) != Initialized ==> state == old(state) && log == old(log)
      {
        var accepted := Submit(frames[i], inputs[i]);
      }
    }

    /** What an accepted frame did: its target, behind a white pre-pass when one was due, from the treated raw
        plane; the new history; and the budget's end. */
    ghost predicate Issued(frame: Frame, given: Inputs, kept: seq<byte>, before: seq<Call>)
      reads this
    {
      var raw := RawPlane(frame, given.plane, 4 * (width * height));
      && raw.Some?
      && var pixels := TreatedPixels(raw.value, given.gray, given.vivid);
         var (count, white) := WhitePass(frame, kept, pixels, given);
         && |log| == |before| + (if count == 0 then 1 else 2) && before <= log
         && IsTargetCall(log[|log| - 1], frame, raw.value, pixels, given, TargetMode(frame), count != 0)
         && (count != 0 ==> IsWhiteCall(log[|before|], frame, raw.value, white, given))
         && history == (if given.quality % 2 == 1 && frame.sleepEpoch == 0 then pixels else [])
         && state == (if !continuous && |log| == HARD_LIMIT then Submitted else Initialized)
    }

    lemma KeptIsLastTarget(frame: Frame, given: Inputs)
      requires HistoryIsLastTarget(history, log, qualityConfig, grayConfig, vividConfig)
      ensures HistoryIsLastTarget(KeptHistory(frame, given), log, given.quality, given.gray, given.vivid)
    {
      hide TreatedPixels;
    }

    /** The last call is this frame's white, and its start was seen as `displayed`. */
    ghost predicate PairOpen(frame: Frame, raw: seq<byte>, displayed: u32)
      reads this
    {
      && log != []
      && var w := log[|log| - 1];
         w.white && w.result == ACCEPTED && w.sequence == frame.sequence && w.raw == raw && CanTrackNext(w.marker)
         && displayed == w.marker + 1
    }
  }

  predicate IsWhiteCall(c: Call, frame: Frame, raw: seq<byte>, white: seq<byte>, given: Inputs) {
    && c.white && c.paired && c.result == ACCEPTED && c.sequence == frame.sequence && c.raw == raw && c.pixels == white
    && c.quality == given.quality && c.gray == given.gray && c.vivid == given.vivid
  }

  predicate IsTargetCall(c: Call, frame: Frame, raw: seq<byte>, pixels: seq<byte>, given: Inputs, mode: int,
      paired: bool) {
    && !c.white && c.paired == paired && c.result == ACCEPTED && c.sequence == frame.sequence && c.raw == raw
    && c.pixels == pixels
    && c.quality == given.quality && c.gray == given.gray && c.vivid == given.vivid && c.mode == mode
  }
}
