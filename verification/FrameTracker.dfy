/** Exact frame tracking: the RGB tracker's in-place comparison, its generation counter, and the demand gate. */
module FrameTracker {
  import opened Bits
  import opened Raster
  import opened Wrappers
  import opened Grayscale

  /** `max_size()` of a vector of 32-bit words. */
  const MAX_WORDS := 0x1FFF_FFFF_FFFF_FFFF

  function Packed(r: byte, g: byte, b: byte): (word: int)
    ensures 0 <= word < 0x100_0000
  {
    (r as int) + 256 * g + 65536 * b
  }

  lemma PackedInjective(r: byte, g: byte, b: byte, r2: byte, g2: byte, b2: byte)
    requires Packed(r, g, b) == Packed(r2, g2, b2)
    ensures r == r2 && g == g2 && b == b2
  {
  }

  function RgbAt(s: Source, x: int, y: int): (word: int)
    requires s.IsValid() && s.Readable() && 0 <= x < s.width && 0 <= y < s.height
  {
    Packed(RedAt(s, x, y), GreenAt(s, x, y), BlueAt(s, x, y))
  }

  /** The picture: one word per pixel, row by row. Stride, padding, alpha and byte order are gone. */
  function Picture(s: Source): (p: seq<int>)
    requires s.IsValid() && s.Readable()
    ensures |p| == Area(s.width, s.height)
  {
    AreaNonNegative(s.width, s.height);
    seq(Area(s.width, s.height), i requires 0 <= i < Area(s.width, s.height) =>
      SplitBounds(i, s.width, s.height); RgbAt(s, Col(i, s.width), Row(i, s.width)))
  }

  predicate SameRgb(s: Source, t: Source, x: int, y: int)
    requires s.IsValid() && s.Readable() && t.IsValid() && t.Readable()
    requires 0 <= x < s.width && 0 <= y < s.height && s.width == t.width && s.height == t.height
  {
    RedAt(s, x, y) == RedAt(t, x, y) && GreenAt(s, x, y) == GreenAt(t, x, y) && BlueAt(s, x, y) == BlueAt(t, x, y)
  }

  lemma PictureAt(s: Source, x: int, y: int)
    requires s.IsValid() && s.Readable() && 0 <= x < s.width && 0 <= y < s.height
    ensures 0 <= At(x, y, s.width) < |Picture(s)| && Picture(s)[At(x, y, s.width)] == RgbAt(s, x, y)
  {
    AtBounds(x, y, s.width, s.height);
    hide RgbAt, At, Col, Row, Area;
  }

  /** Pictures are equal exactly when every pixel's three channels are. */
  lemma PictureIsRgb(s: Source, t: Source)
    requires s.IsValid() && s.Readable() && t.IsValid() && t.Readable() && s.width == t.width && s.height == t.height
    ensures Picture(s) == Picture(t) <==> forall x, y :: 0 <= x < s.width && 0 <= y < s.height ==> SameRgb(s, t, x, y)
  {
    hide SameRgb, Picture;
    if Picture(s) == Picture(t) {
      forall x, y | 0 <= x < s.width && 0 <= y < s.height ensures SameRgb(s, t, x, y) { EqualWords(s, t, x, y); }
    }
    if forall x, y :: 0 <= x < s.width && 0 <= y < s.height ==> SameRgb(s, t, x, y) {
      EqualPictures(s, t);
    }
  }

  lemma EqualWords(s: Source, t: Source, x: int, y: int)
    requires s.IsValid() && s.Readable() && t.IsValid() && t.Readable() && s.width == t.width && s.height == t.height
    requires Picture(s) == Picture(t) && 0 <= x < s.width && 0 <= y < s.height
    ensures SameRgb(s, t, x, y)
  {
    PictureAt(s, x, y);
    PictureAt(t, x, y);
    hide RedAt, GreenAt, BlueAt, Picture, Packed;
    PackedInjective(RedAt(s, x, y), GreenAt(s, x, y), BlueAt(s, x, y), RedAt(t, x, y), GreenAt(t, x, y),
      BlueAt(t, x, y));
  }

  lemma EqualPictures(s: Source, t: Source)
    requires s.IsValid() && s.Readable() && t.IsValid() && t.Readable() && s.width == t.width && s.height == t.height
    requires forall x, y :: 0 <= x < s.width && 0 <= y < s.height ==> SameRgb(s, t, x, y)
    ensures Picture(s) == Picture(t)
  {
    hide RedAt, GreenAt, BlueAt, Packed, Area, At, Row, Col;
    forall i | 0 <= i < |Picture(s)| ensures Picture(s)[i] == Picture(t)[i] {
      SplitBounds(i, s.width, s.height);
      assert SameRgb(s, t, Col(i, s.width), Row(i, s.width));
    }
  }

  // ---------- the tracker's state ----------

  datatype Tracker = Tracker(width: int, height: int, picture: seq<int>, generation: u64)

  /** Zero is skipped: it marks refused input. */
  function Next(g: u64): (n: u64)
    ensures n != 0 && n != g
  {
    if g == U64_MAX then 1 else g + 1
  }

  predicate Tracks(t: Tracker) { t.width >= 0 && t.height >= 0 && |t.picture| == Area(t.width, t.height) }

  /** What the size checks and the readable bytes allow. */
  predicate Trackable(s: Source, available: int, maxPixels: int) {
    && s.IsValid() && s.width <= maxPixels / s.height && s.width <= MAX_WORDS / s.height
    && s.stride <= SIZE_MAX / s.height / 4
    && Area(s.height - 1, s.stride * 4) + s.width * 4 <= available
  }

  lemma TrackableIsReadable(s: Source, available: int, maxPixels: int)
    requires Trackable(s, available, maxPixels) && s.pixels.Some? && available <= |s.pixels.value|
    ensures s.Readable()
  {
    assert (Area(s.stride, s.height - 1) + s.width) * 4 == Area(s.height - 1, s.stride * 4) + s.width * 4 by {
      assert s.stride * (s.height - 1) * 4 == (s.height - 1) * (s.stride * 4);
    }
  }

  predicate SameFrame(t: Tracker, s: Source)
    requires s.IsValid() && s.Readable()
  {
    t.width == s.width && t.height == s.height && t.picture == Picture(s)
  }

  function Updated(t: Tracker, s: Source): (u: Tracker)
    requires s.IsValid() && s.Readable()
  {
    if SameFrame(t, s) then t else Tracker(s.width, s.height, Picture(s), Next(t.generation))
  }

  function Forgotten(t: Tracker): Tracker { Tracker(0, 0, [], t.generation) }

  // ---------- generations over runs ----------

  predicate Frames(frames: seq<Source>) {
    forall i :: 0 <= i < |frames| ==> frames[i].IsValid() && frames[i].Readable()
  }

  function TrackAll(t: Tracker, frames: seq<Source>): (u: Tracker)
    requires Frames(frames)
  {
    if frames == [] then t else Updated(TrackAll(t, frames[..|frames| - 1]), frames[|frames| - 1])
  }

  /** How many frames differ from the one before. */
  function Changes(t: Tracker, frames: seq<Source>): (n: nat)
    requires Frames(frames)
    ensures n <= |frames|
  {
    if frames == [] then 0
    else
      Changes(t, frames[..|frames| - 1])
      + if SameFrame(TrackAll(t, frames[..|frames| - 1]), frames[|frames| - 1]) then 0 else 1
  }

  /** The generation after c changes; it cycles through 1 .. 2^64 - 1. */
  function Advanced(g: u64, c: nat): (a: u64) {
    if g == 0 then if c == 0 then 0 else (c - 1) % U64_MAX + 1
    else (g - 1 + c) % U64_MAX + 1
  }

  lemma AdvancedStep(g: u64, c: nat)
    ensures Next(Advanced(g, c)) == Advanced(g, c + 1)
    ensures Advanced(g, 0) == g
  {
    var base := if g == 0 then c - 1 else g - 1 + c;
    if base >= 0 { ModStep(base, U64_MAX); }
  }

  lemma ModStep(a: nat, m: nat)
    requires m > 1
    ensures (a + 1) % m == if a % m == m - 1 then 0 else a % m + 1
  {
    var q, r := a / m, a % m;
    if r == m - 1 {
      assert a + 1 == (q + 1) * m + 0;
      DivUnique(q + 1, 0, m);
    } else {
      assert a + 1 == q * m + (r + 1);
      DivUnique(q, r + 1, m);
    }
  }

  lemma {:induction false} GenerationCounts(t: Tracker, frames: seq<Source>)
    requires Frames(frames)
    ensures TrackAll(t, frames).generation == Advanced(t.generation, Changes(t, frames))
    decreases |frames|
  {
    hide Picture;
    if frames == [] {
      AdvancedStep(t.generation, 0);
    } else {
      var front := frames[..|frames| - 1];
      GenerationCounts(t, front);
      AdvancedStep(t.generation, Changes(t, front));
      hide Advanced;
    }
  }

  lemma {:induction false} NoChanges(t: Tracker, frames: seq<Source>)
    requires Frames(frames)
    ensures Changes(t, frames) == 0 <==> forall i :: 0 <= i < |frames| ==> SameFrame(t, frames[i])
    ensures Changes(t, frames) == 0 ==> TrackAll(t, frames) == t
    decreases |frames|
  {
    hide Picture;
    if frames != [] {
      var front := frames[..|frames| - 1];
      NoChanges(t, front);
      assert forall i :: 0 <= i < |front| ==> front[i] == frames[i];
      if forall i :: 0 <= i < |frames| ==> SameFrame(t, frames[i]) {
        assert forall i :: 0 <= i < |front| ==> SameFrame(t, front[i]);
        assert SameFrame(t, frames[|front|]);
      }
    }
  }

  lemma CycleClosed(g: u64, c: nat)
    ensures g == 0 ==> (Advanced(g, c) == g <==> c == 0)
    ensures g != 0 ==> (Advanced(g, c) == g <==> c % U64_MAX == 0)
  {
    if g != 0 {
      var q, r := c / U64_MAX, c % U64_MAX;
      if g - 1 + r < U64_MAX {
        DivUnique(q, g - 1 + r, U64_MAX);
      } else {
        DivUnique(q + 1, g - 1 + r - U64_MAX, U64_MAX);
      }
    }
  }

  /** Two readings of a live generation agree exactly when the changes between them are a multiple of
      2^64 - 1; within that many frames, exactly when every frame between equals the one before them. */
  lemma {:induction false} SameGenerationMeansUnchanged(t: Tracker, frames: seq<Source>)
    requires Frames(frames) && t.generation != 0
    ensures TrackAll(t, frames).generation == t.generation <==> Changes(t, frames) % U64_MAX == 0
    ensures |frames| < U64_MAX ==>
      (TrackAll(t, frames).generation == t.generation <==> forall i :: 0 <= i < |frames| ==> SameFrame(t, frames[i]))
  {
    GenerationCounts(t, frames);
    NoChanges(t, frames);
    CycleClosed(t.generation, Changes(t, frames));
    hide Advanced, SameFrame;
    if |frames| < U64_MAX { SmallMod(Changes(t, frames), U64_MAX); }
  }

  lemma SmallMod(c: nat, m: nat)
    requires c < m
    ensures c % m == 0 <==> c == 0
  {
  }

  // ---------- the demand gate ----------

  datatype Signature = Signature(hash: u64, bytes: int, width: int, height: int)
  datatype Demand = SessionStart | Rearmed | ContentChanged | Unchanged
  datatype Counts = Counts(sessionStarts: nat, rearmed: nat, changed: nat, same: nat)
  datatype Gate = Gate(hasPrevious: bool, nextIsRearm: bool, previous: Signature, counts: Counts)

  function Demanded(g: Gate, s: Signature): Demand {
    if !g.hasPrevious then if g.nextIsRearm then Rearmed else SessionStart
    else if g.previous == s then Unchanged
    else ContentChanged
  }

  function Evaluated(g: Gate, s: Signature): Gate {
    var d := Demanded(g, s);
    Gate(true, g.nextIsRearm && d != Rearmed, s,
         match d
         case SessionStart => g.counts.(sessionStarts := g.counts.sessionStarts + 1)
         case Rearmed => g.counts.(rearmed := g.counts.rearmed + 1)
         case ContentChanged => g.counts.(changed := g.counts.changed + 1)
         case Unchanged => g.counts.(same := g.counts.same + 1))
  }

  function Disarmed(g: Gate): Gate { g.(hasPrevious := false, nextIsRearm := true) }

  /** The worker's signature of a frame: its generation and the converted geometry. */
  function Signed(t: Tracker, s: Source, rot: Rotation): Signature {
    Signature(t.generation, Area(s.width, s.height), OutWidth(s.width, s.height, rot),
      OutHeight(s.width, s.height, rot))
  }

  predicate SamePicture(s: Source, t: Source)
    requires s.IsValid() && s.Readable() && t.IsValid() && t.Readable()
  {
    s.width == t.width && s.height == t.height && Picture(s) == Picture(t)
  }

  predicate ValidFrame(s: Source) { s.IsValid() && s.Readable() }

  /** Tracker and gate have both last seen this frame, or both nothing since a reset. */
  predicate Linked(t: Tracker, g: Gate, last: Option<Source>, rot: Rotation) {
    match last
    case None => !g.hasPrevious && t.width == 0
    case Some(f) =>
      ValidFrame(f) && g.hasPrevious && SameFrame(t, f) && t.generation != 0 && g.previous == Signed(t, f, rot)
  }

  /** One frame through both. */
  lemma LockstepFrame(t: Tracker, g: Gate, last: Option<Source>, s: Source, rot: Rotation)
    requires Linked(t, g, last, rot) && ValidFrame(s)
    ensures var u := Updated(t, s);
            && Linked(u, Evaluated(g, Signed(u, s, rot)), Some(s), rot)
            && (Demanded(g, Signed(u, s, rot)) == Unchanged <==> last.Some? && SamePicture(last.value, s))
            && (Demanded(g, Signed(u, s, rot)) == ContentChanged <==> last.Some? && !SamePicture(last.value, s))
  {
    hide Picture, Area;
  }

  // ---------- runs of the worker ----------

  /** One pass: a frame the gate is asked about; a frame dropped after the tracker saw it; a reset of both, as at a
      change of source; and a reset of the gate alone, as when presentation is enabled again or a cycle ends. */
  datatype Pass = Judged(frame: Source) | Dropped(frame: Source) | ResetBoth | Rearm

  predicate Sees(x: Pass) { x.Judged? || x.Dropped? }

  ghost predicate ValidRun(run: seq<Pass>) {
    forall i :: 0 <= i < |run| && Sees(run[i]) ==> ValidFrame(run[i].frame)
  }

  /** Tracker and gate behind the passes. */
  function After(t: Tracker, g: Gate, run: seq<Pass>, rot: Rotation): (r: (Tracker, Gate))
    requires ValidRun(run)
  {
    if run == [] then (t, g)
    else
      var last := run[|run| - 1];
      assert ValidRun(run[..|run| - 1]) && (Sees(last) ==> ValidFrame(last.frame));
      var (u, h) := After(t, g, run[..|run| - 1], rot);
      match last
      case Judged(f) => (Updated(u, f), Evaluated(h, Signed(Updated(u, f), f, rot)))
      case Dropped(f) => (Updated(u, f), h)
      case ResetBoth => (Forgotten(u), Disarmed(h))
      case Rearm => (u, Disarmed(h))
  }

  /** The gate's answer to pass i. */
  function AnswerAt(t: Tracker, g: Gate, run: seq<Pass>, rot: Rotation, i: nat): Demand
    requires ValidRun(run) && i < |run| && run[i].Judged?
  {
    var (u, h) := After(t, g, run[..i], rot);
    Demanded(h, Signed(Updated(u, run[i].frame), run[i].frame, rot))
  }

  /** Pass j is the last one judged before i, and nothing was reset since. */
  predicate Remembered(run: seq<Pass>, j: nat, i: nat) {
    j < i <= |run| && run[j].Judged? && forall k :: j < k < i ==> run[k].Dropped?
  }

  /** The frames tracked from pass i up to n. */
  function Tracked(run: seq<Pass>, i: nat, n: nat): (frames: seq<Source>)
    requires i <= n <= |run| && ValidRun(run) && forall k :: i <= k < n ==> Sees(run[k])
    ensures Frames(frames) && |frames| == n - i
  {
    seq(n - i, k requires 0 <= k < n - i => run[i + k].frame)
  }

  /** A tracker that holds a frame has given it a number. */
  predicate Counting(t: Tracker) { t.width == 0 || t.generation != 0 }

  lemma AfterFront(t: Tracker, g: Gate, run: seq<Pass>, rot: Rotation, n: nat)
    requires ValidRun(run) && n < |run|
    ensures ValidRun(run[..n]) && ValidRun(run[..n + 1]) && (Sees(run[n]) ==> ValidFrame(run[n].frame))
    ensures var (u, h) := After(t, g, run[..n], rot);
            After(t, g, run[..n + 1], rot) ==
            match run[n]
            case Judged(f) => (Updated(u, f), Evaluated(h, Signed(Updated(u, f), f, rot)))
            case Dropped(f) => (Updated(u, f), h)
            case ResetBoth => (Forgotten(u), Disarmed(h))
            case Rearm => (u, Disarmed(h))
  {
    var front := run[..n + 1];
    assert front[..n] == run[..n] && front[n] == run[n];
  }

  lemma UpdatedHolds(t: Tracker, f: Source)
    requires ValidFrame(f) && Counting(t)
    ensures SameFrame(Updated(t, f), f) && Counting(Updated(t, f)) && Updated(t, f).generation != 0
  {
    hide Picture;
  }

  lemma {:induction false} StaysCounting(t: Tracker, g: Gate, run: seq<Pass>, rot: Rotation, n: nat)
    requires ValidRun(run) && Counting(t) && n <= |run|
    ensures ValidRun(run[..n]) && Counting(After(t, g, run[..n], rot).0)
    decreases n
  {
    hide Picture, Signed, Evaluated;
    if n > 0 {
      StaysCounting(t, g, run, rot, n - 1);
      AfterFront(t, g, run, rot, n - 1);
    }
  }

  /** A remembered pass is what the gate holds, and the tracker has only seen the frames since. */
  lemma {:induction false} StillRemembered(t: Tracker, g: Gate, run: seq<Pass>, rot: Rotation, j: nat, n: nat)
    requires ValidRun(run) && Counting(t) && Remembered(run, j, n)
    ensures ValidRun(run[..j + 1]) && ValidRun(run[..n]) && ValidFrame(run[j].frame)
    ensures var u := After(t, g, run[..j + 1], rot).0;
            var (v, h) := After(t, g, run[..n], rot);
            && SameFrame(u, run[j].frame) && u.generation != 0
            && h.hasPrevious && h.previous == Signed(u, run[j].frame, rot)
            && v == TrackAll(u, Tracked(run, j + 1, n))
    decreases n
  {
    hide Picture, Signed, Updated, After, SameFrame;
    AfterFront(t, g, run, rot, n - 1);
    if n == j + 1 {
      StaysCounting(t, g, run, rot, j);
      UpdatedHolds(After(t, g, run[..j], rot).0, run[j].frame);
    } else {
      StillRemembered(t, g, run, rot, j, n - 1);
      var frames := Tracked(run, j + 1, n);
      assert frames[..|frames| - 1] == Tracked(run, j + 1, n - 1) && frames[|frames| - 1] == run[n - 1].frame;
    }
  }

  lemma {:induction false} NothingRemembered(t: Tracker, g: Gate, run: seq<Pass>, rot: Rotation, n: nat)
    requires ValidRun(run) && !g.hasPrevious && n <= |run| && forall j: nat :: !Remembered(run, j, n)
    ensures ValidRun(run[..n]) && !After(t, g, run[..n], rot).1.hasPrevious
    decreases n
  {
    hide Picture, Signed, Updated;
    if n > 0 {
      AfterFront(t, g, run, rot, n - 1);
      assert !Remembered(run, n - 1, n);
      if run[n - 1].Dropped? {
        NotYetRemembered(run, n - 1, n);
        NothingRemembered(t, g, run, rot, n - 1);
      }
    }
  }

  lemma NotYetRemembered(run: seq<Pass>, m: nat, n: nat)
    requires n == m + 1 <= |run| && run[m].Dropped? && forall j: nat :: !Remembered(run, j, n)
    ensures forall j: nat :: !Remembered(run, j, m)
  {
    if j: nat :| Remembered(run, j, m) { assert Remembered(run, j, n); }
  }

  /** Equal signatures, for a frame remembered and the tracker's state behind the frames since. */
  lemma SameSignature(u: Tracker, f: Source, frames: seq<Source>, rot: Rotation)
    requires ValidFrame(f) && SameFrame(u, f) && u.generation != 0 && Frames(frames) && frames != []
    ensures var last := frames[|frames| - 1];
            && ValidFrame(last)
            && (Signed(TrackAll(u, frames), last, rot) == Signed(u, f, rot) <==>
                last.width == f.width && last.height == f.height && Changes(u, frames) % U64_MAX == 0)
    ensures |frames| < U64_MAX ==>
            (Signed(TrackAll(u, frames), frames[|frames| - 1], rot) == Signed(u, f, rot) <==>
             forall k :: 0 <= k < |frames| ==> SamePicture(f, frames[k]))
  {
    SameGenerationMeansUnchanged(u, frames);
    hide Picture, Area, Changes, TrackAll;
    if forall k :: 0 <= k < |frames| ==> SameFrame(u, frames[k]) {
      assert SameFrame(u, frames[|frames| - 1]);
    }
    if forall k :: 0 <= k < |frames| ==> SamePicture(f, frames[k]) {
      assert SamePicture(f, frames[|frames| - 1]);
    }
  }

  /** Over any run of the worker from an idle gate: a frame is answered unchanged only when an earlier judged one is
      remembered, and then exactly when it has that one's size and the changes the tracker counted since are a
      multiple of 2^64 - 1. Within that many passes this means that every frame since, dropped ones included, has
      the same geometry and RGB pixels. */
  lemma {:induction false} UnchangedMeansSame(t: Tracker, g: Gate, run: seq<Pass>, rot: Rotation, i: nat)
    requires ValidRun(run) && Counting(t) && !g.hasPrevious && i < |run| && run[i].Judged?
    ensures AnswerAt(t, g, run, rot, i) in {Unchanged, ContentChanged} <==> exists j: nat :: Remembered(run, j, i)
    ensures forall j: nat :: Remembered(run, j, i) ==>
              && ValidRun(run[..j + 1])
              && (AnswerAt(t, g, run, rot, i) == Unchanged <==>
                  && run[i].frame.width == run[j].frame.width && run[i].frame.height == run[j].frame.height
                  && Changes(After(t, g, run[..j + 1], rot).0, Tracked(run, j + 1, i + 1)) % U64_MAX == 0)
              && (i - j < U64_MAX ==>
                  (AnswerAt(t, g, run, rot, i) == Unchanged <==>
                   forall k :: j < k <= i ==> SamePicture(run[j].frame, run[k].frame)))
  {
    hide Picture, Signed, Updated, After, Tracked, Changes, SamePicture;
    forall j: nat | Remembered(run, j, i)
      ensures AnswerAt(t, g, run, rot, i) in {Unchanged, ContentChanged}
      ensures && ValidRun(run[..j + 1])
              && (AnswerAt(t, g, run, rot, i) == Unchanged <==>
                  && run[i].frame.width == run[j].frame.width && run[i].frame.height == run[j].frame.height
                  && Changes(After(t, g, run[..j + 1], rot).0, Tracked(run, j + 1, i + 1)) % U64_MAX == 0)
              && (i - j < U64_MAX ==>
                  (AnswerAt(t, g, run, rot, i) == Unchanged <==>
                   forall k :: j < k <= i ==> SamePicture(run[j].frame, run[k].frame)))
    {
      RememberedAnswer(t, g, run, rot, j, i);
    }
    if forall j: nat :: !Remembered(run, j, i) { NothingRemembered(t, g, run, rot, i); }
  }

  lemma {:induction false} RememberedAnswer(t: Tracker, g: Gate, run: seq<Pass>, rot: Rotation, j: nat, i: nat)
    requires ValidRun(run) && Counting(t) && i < |run| && run[i].Judged? && Remembered(run, j, i)
    ensures AnswerAt(t, g, run, rot, i) in {Unchanged, ContentChanged} && ValidRun(run[..j + 1])
    ensures AnswerAt(t, g, run, rot, i) == Unchanged <==>
            && run[i].frame.width == run[j].frame.width && run[i].frame.height == run[j].frame.height
            && Changes(After(t, g, run[..j + 1], rot).0, Tracked(run, j + 1, i + 1)) % U64_MAX == 0
    ensures i - j < U64_MAX ==>
            (AnswerAt(t, g, run, rot, i) == Unchanged <==>
             forall k :: j < k <= i ==> SamePicture(run[j].frame, run[k].frame))
  {
    hide Picture, Signed, Updated, After, AnswerAt, Changes, TrackAll, SameFrame, Tracked, SamePicture;
    AnswerCompares(t, g, run, rot, j, i);
    var u, frames := After(t, g, run[..j + 1], rot).0, Tracked(run, j + 1, i + 1);
    SameSignature(u, run[j].frame, frames, rot);
    SameSince(run, j, i);
  }

  /** The answer compares the signatures of the remembered frame and of this one. */
  lemma AnswerCompares(t: Tracker, g: Gate, run: seq<Pass>, rot: Rotation, j: nat, i: nat)
    requires ValidRun(run) && Counting(t) && i < |run| && run[i].Judged? && Remembered(run, j, i)
    ensures ValidRun(run[..j + 1]) && ValidFrame(run[j].frame) && ValidFrame(run[i].frame)
    ensures var u, frames := After(t, g, run[..j + 1], rot).0, Tracked(run, j + 1, i + 1);
            && SameFrame(u, run[j].frame) && u.generation != 0
            && frames != [] && frames[|frames| - 1] == run[i].frame
            && AnswerAt(t, g, run, rot, i) ==
                 if Signed(TrackAll(u, frames), run[i].frame, rot) == Signed(u, run[j].frame, rot) then Unchanged
                 else ContentChanged
  {
    hide Picture, Signed, Updated, After, SameFrame, Tracked, TrackAll;
    StillRemembered(t, g, run, rot, j, i);
    TrackOneMore(After(t, g, run[..j + 1], rot).0, run, j, i);
  }

  lemma TrackOneMore(u: Tracker, run: seq<Pass>, j: nat, i: nat)
    requires ValidRun(run) && i < |run| && run[i].Judged? && Remembered(run, j, i)
    ensures var frames := Tracked(run, j + 1, i + 1);
            && frames != [] && frames[|frames| - 1] == run[i].frame && ValidFrame(run[i].frame)
            && TrackAll(u, frames) == Updated(TrackAll(u, Tracked(run, j + 1, i)), run[i].frame)
  {
    var frames := Tracked(run, j + 1, i + 1);
    assert frames[..|frames| - 1] == Tracked(run, j + 1, i) && frames[|frames| - 1] == run[i].frame;
    hide Updated;
  }

  lemma SameSince(run: seq<Pass>, j: nat, i: nat)
    requires ValidRun(run) && i < |run| && run[i].Judged? && Remembered(run, j, i)
    ensures var frames := Tracked(run, j + 1, i + 1);
            (forall k :: 0 <= k < |frames| ==> SamePicture(run[j].frame, frames[k])) <==>
            (forall k :: j < k <= i ==> SamePicture(run[j].frame, run[k].frame))
  {
    var frames := Tracked(run, j + 1, i + 1);
    hide SamePicture;
    assert forall k :: j < k <= i ==> frames[k - j - 1] == run[k].frame;
  }

  class FrameDemandGate {
    var hasPrevious: bool
    var nextFrameIsRearm: bool
    var previous: Signature
    var counts: Counts

    function Abs(): Gate
      reads this
    {
      Gate(hasPrevious, nextFrameIsRearm, previous, counts)
    }

    constructor ()
      ensures !hasPrevious && !nextFrameIsRearm
    {
      hasPrevious, nextFrameIsRearm, previous, counts := false, false, Signature(0, 0, 0, 0), Counts(0, 0, 0, 0);
    }

    method Evaluate(s: Signature) returns (d: Demand)
      modifies this
      ensures d == Demanded(old(Abs()), s) && Abs() == Evaluated(old(Abs()), s)
    {
      if !hasPrevious {
        previous := s;
        hasPrevious := true;
        if nextFrameIsRearm {
          nextFrameIsRearm := false;
          counts := counts.(rearmed := counts.rearmed + 1);
          return Rearmed;
        }
        counts := counts.(sessionStarts := counts.sessionStarts + 1);
        return SessionStart;
      }
      if previous == s {
        counts := counts.(same := counts.same + 1);
        return Unchanged;
      }
      previous := s;
      counts := counts.(changed := counts.changed + 1);
      return ContentChanged;
    }

    method Reset()
      modifies this
      ensures Abs() == Disarmed(old(Abs()))
    {
      hasPrevious := false;
      nextFrameIsRearm := true;
    }
  }

  // ---------- the tracker ----------

  class RgbFrameTracker {
    const maxPixels: nat
    var previous: array<int>
    var width: int
    var height: int
    var generation: u64

    ghost predicate Valid()
      reads this, previous
    {
      Tracks(Abs()) && forall i :: 0 <= i < previous.Length ==> previous[i] >= 0
    }

    ghost function Abs(): Tracker
      reads this, previous
    {
      Tracker(width, height, previous[..], generation)
    }

    constructor (maxPixels: nat)
      ensures Valid() && Abs() == Tracker(0, 0, [], 0) && fresh(previous) && this.maxPixels == maxPixels
    {
      this.maxPixels := maxPixels;
      previous := new int[0];
      width, height, generation := 0, 0, 0;
      new;
      assert previous[..] == [];
    }

    method Reset()
      requires Valid()
      modifies this
      ensures Valid() && Abs() == Forgotten(old(Abs())) && fresh(previous)
    {
      previous := new int[0];
      width, height := 0, 0;
      assert previous[..] == [];
    }

    /** `resize`: keeps what fits and fills with zero. */
    method Resize(n: nat)
      requires Valid()
      modifies this`previous
      ensures previous.Length == n && (previous == old(previous) || fresh(previous))
      ensures n == old(previous.Length) ==> previous == old(previous)
      ensures forall i :: 0 <= i < n ==> previous[i] >= 0
    {
      if n != previous.Length {
        var was := previous;
        previous := new int[n](i requires 0 <= i < n reads was => if i < was.Length then was[i] else 0);
      }
    }

    method Refuses(source: Source, available: nat) returns (refused: bool)
      ensures refused <==> !Trackable(source, available, maxPixels)
    {
      if !source.IsValid() { return true; }
      if source.width > maxPixels / source.height || source.width > MAX_WORDS / source.height
         || source.stride > SIZE_MAX / source.height / 4 {
        return true;
      }
      var required := (source.height - 1) * (source.stride * 4) + source.width * 4;
      return required > available;
    }

    /** Refused input returns zero and leaves the history alone. */
    method Update(source: Source, available: nat) returns (signature: u64)
      requires Valid() && (source.pixels.Some? ==> available <= |source.pixels.value|)
      modifies this, previous
      ensures Valid() && (previous == old(previous) || fresh(previous))
      ensures Trackable(source, available, maxPixels) ==>
        source.IsValid() && source.Readable() && Abs() == Updated(old(Abs()), source) && signature == generation
      ensures !Trackable(source, available, maxPixels) ==> Abs() == old(Abs()) && signature == 0
    {
      var refused := Refuses(source, available);
      if refused { return 0; }
      TrackableIsReadable(source, available, maxPixels);
      hide Picture, Trackable, Area;
      AreaNonNegative(source.width, source.height);
      var geometryChanged := width != source.width || height != source.height;
      Resize(Area(source.width, source.height));
      var difference := CompareRows(source);
      PictureIsPositive(source);
      width, height := source.width, source.height;
      if geometryChanged || difference != 0 {
        generation := if generation == U64_MAX then 1 else generation + 1;
      }
      return generation;
    }

    /** Overwrites the stored words row by row and reports whether any differed. */
    method CompareRows(source: Source) returns (difference: nat)
      requires source.IsValid() && source.Readable() && previous.Length == Area(source.width, source.height)
      requires forall i :: 0 <= i < previous.Length ==> previous[i] >= 0
      modifies previous
      ensures previous[..] == Picture(source)
      ensures difference == 0 <==> old(previous[..]) == Picture(source)
    {
      hide Picture, Progress, Area;
      ghost var was, next := previous[..], Picture(source);
      difference := 0;
      ProgressStart(was, next);
      assert At(0, 0, source.width) == 0;
      for y := 0 to source.height
        invariant Progress(was, previous[..], next, At(0, y, source.width), difference)
      {
        for x := 0 to source.width
          invariant Progress(was, previous[..], next, At(x, y, source.width), difference)
        {
          AtBounds(x, y, source.width, source.height);
          difference := ComparePixel(source, x, y, difference, was, next);
        }
        assert At(source.width, y, source.width) == At(0, y + 1, source.width);
      }
      WholePicture(source.width, source.height);
      ProgressEnd(was, previous[..], next, difference);
    }

    method ComparePixel(source: Source, x: int, y: int, difference: nat, ghost was: seq<int>, ghost next: seq<int>)
        returns (more: nat)
      requires source.IsValid() && source.Readable() && 0 <= x < source.width && 0 <= y < source.height
      requires 0 <= At(x, y, source.width) < previous.Length == Area(source.width, source.height)
      requires next == Picture(source) && Progress(was, previous[..], next, At(x, y, source.width), difference)
      requires forall i :: 0 <= i < |was| ==> was[i] >= 0
      modifies previous
      ensures Progress(was, previous[..], next, At(x + 1, y, source.width), more)
    {
      PictureAt(source, x, y);
      PixelInBuffer(source, x, y);
      var i := At(x, y, source.width);
      ProgressRoom(was, previous[..], next, i, difference);
      hide Picture, BitOr, BitXor, Progress, Area;
      ghost var before := previous[..];
      var rgb := ReadRgb(source, x, y);
      XorIsZero(previous[i], rgb);
      OrIsZero(difference, BitXor(previous[i], rgb));
      more := BitOr(difference, BitXor(previous[i], rgb));
      previous[i] := rgb;
      ProgressStep(was, before, next, i, difference, more);
      assert previous[..] == before[i := rgb];
    }

    method ReadRgb(source: Source, x: int, y: int) returns (rgb: nat)
      requires source.IsValid() && source.Readable() && 0 <= x < source.width && 0 <= y < source.height
      ensures rgb == RgbAt(source, x, y)
    {
      PixelInBuffer(source, x, y);
      var pixel := 4 * At(x, y, source.stride);
      var red := source.pixels.value[pixel + if source.layout == Rgba8888 then 0 else 2];
      var blue := source.pixels.value[pixel + if source.layout == Rgba8888 then 2 else 0];
      rgb := OrRgb(red, source.pixels.value[pixel + 1], blue);
    }
  }

  lemma PictureIsPositive(s: Source)
    requires s.IsValid() && s.Readable()
    ensures forall i :: 0 <= i < |Picture(s)| ==> Picture(s)[i] >= 0
  {
    hide RgbAt, At, Row, Col, Area;
    forall i | 0 <= i < |Picture(s)| ensures Picture(s)[i] >= 0 {
      SplitBounds(i, s.width, s.height);
      PackedIsPositive(s, Col(i, s.width), Row(i, s.width));
    }
  }

  lemma PackedIsPositive(s: Source, x: int, y: int)
    requires s.IsValid() && s.Readable() && 0 <= x < s.width && 0 <= y < s.height
    ensures RgbAt(s, x, y) >= 0
  {
  }

  lemma WholePicture(w: int, h: int)
    ensures At(0, h, w) == Area(w, h)
  {
  }

  lemma ProgressStart(was: seq<int>, next: seq<int>)
    requires |was| == |next|
    ensures Progress(was, was, next, 0, 0)
  {
  }

  lemma ProgressEnd(was: seq<int>, now: seq<int>, next: seq<int>, difference: nat)
    requires Progress(was, now, next, |next|, difference)
    ensures now == next && (difference == 0 <==> was == next)
  {
  }

  lemma ProgressRoom(was: seq<int>, now: seq<int>, next: seq<int>, n: int, difference: nat)
    requires Progress(was, now, next, n, difference) && n < |next|
    requires forall i :: 0 <= i < |was| ==> was[i] >= 0
    ensures now[n] == was[n] >= 0
  {
  }

  lemma ProgressStep(was: seq<int>, now: seq<int>, next: seq<int>, n: int, difference: nat, more: nat)
    requires Progress(was, now, next, n, difference) && n < |next|
    requires more == 0 <==> difference == 0 && now[n] == next[n]
    ensures Progress(was, now[n := next[n]], next, n + 1, more)
  {
  }

  /** The first n words are new, the rest old, and the difference is zero exactly when they were equal so far. */
  ghost predicate Progress(was: seq<int>, now: seq<int>, next: seq<int>, n: int, difference: nat) {
    && 0 <= n <= |was| == |now| == |next|
    && (forall i :: 0 <= i < n ==> now[i] == next[i]) && (forall i :: n <= i < |was| ==> now[i] == was[i])
    && (difference == 0 <==> forall i :: 0 <= i < n ==> was[i] == next[i])
  }

  /** The three shifted channels or-ed together. */
  method OrRgb(r: byte, g: byte, b: byte) returns (word: int)
    ensures word == Packed(r, g, b)
  {
    OrBytes(r, g);
    assert Pow2(16) == 65536 by { assert Pow2(4) == 16; assert Pow2(8) == 256; assert Pow2(12) == 4096; }
    OrShifted((r as int) + 256 * g, b, 16);
    word := BitOr(BitOr(r, (g as int) * 256), (b as int) * 65536);
  }
}
