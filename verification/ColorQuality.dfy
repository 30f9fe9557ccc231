/** Colour-quality history: which pixels a white pre-pass covers before a target is shown. */
module ColorQuality {
  import opened Bits

  datatype Thresholds = Thresholds(chroma: int, change: int, nearWhite: int)

  /** The configured thresholds forced into their ranges. */
  function Clamped(t: Thresholds): (c: Thresholds) {
    Thresholds(Clamp(t.chroma, 1, 255), Clamp(t.change, 1, 255), Clamp(t.nearWhite, 0, 255))
  }

  function High(s: seq<byte>, i: nat): (m: byte)
    requires i + 3 <= |s|
  {
    Max(Max(s[i], s[i + 1]), s[i + 2])
  }

  function Low(s: seq<byte>, i: nat): (m: byte)
    requires i + 3 <= |s|
  {
    Min(Min(s[i], s[i + 1]), s[i + 2])
  }

  function Gap(a: byte, b: byte): (d: byte) { Abs((a as int) - b) }

  /** Largest channel difference. */
  function Change(s: seq<byte>, t: seq<byte>, i: nat): (m: byte)
    requires i + 3 <= |s| == |t|
  {
    Max(Max(Gap(s[i], t[i]), Gap(s[i + 1], t[i + 1])), Gap(s[i + 2], t[i + 2]))
  }

  /** The pixel at byte i is covered with white first: it is coloured, and either a cleanup is forced or
      it was not near white and moved far enough. Thresholds are already clamped. */
  predicate Covers(previous: seq<byte>, target: seq<byte>, t: Thresholds, cleanup: bool, i: nat)
    requires i + 3 <= |target|
  {
    && High(target, i) - Low(target, i) >= t.chroma
    && (cleanup
        || (|previous| == |target| && Low(previous, i) < t.nearWhite && Change(target, previous, i) >= t.change))
  }

  predicate Usable(previous: seq<byte>, target: seq<byte>, cleanup: bool) {
    target != [] && |target| % 4 == 0 && (|previous| == |target| || cleanup)
  }

  /** Covered pixels among the first n bytes. */
  function Covered(previous: seq<byte>, target: seq<byte>, t: Thresholds, cleanup: bool, n: nat): (count: nat)
    requires n <= |target| && n % 4 == 0
    decreases n
  {
    if n == 0 then 0
    else Covered(previous, target, t, cleanup, n - 4) + if Covers(previous, target, t, cleanup, n - 4) then 1 else 0
  }

  function CoverCount(previous: seq<byte>, target: seq<byte>, thresholds: Thresholds, cleanup: bool): (count: nat) {
    if !Usable(previous, target, cleanup) then 0 else Covered(previous, target, Clamped(thresholds), cleanup, |target|)
  }

  /** The target with the covered pixels white; empty when there are none. */
  function Intermediate(previous: seq<byte>, target: seq<byte>, thresholds: Thresholds, cleanup: bool): (s: seq<byte>) {
    if CoverCount(previous, target, thresholds, cleanup) == 0 then []
    else
      seq(|target|, i requires 0 <= i < |target| =>
        if i / 4 * 4 + 3 <= |target| && Covers(previous, target, Clamped(thresholds), cleanup, i / 4 * 4)
        then 255 else target[i])
  }

  lemma {:induction false} CountZero(previous: seq<byte>, target: seq<byte>, t: Thresholds, cleanup: bool, n: nat)
    requires n <= |target| && n % 4 == 0
    ensures Covered(previous, target, t, cleanup, n) == 0 <==>
            forall i: nat :: i < n && i % 4 == 0 ==> !Covers(previous, target, t, cleanup, i)
    decreases n
  {
    if n > 0 {
      CountZero(previous, target, t, cleanup, n - 4);
      assert forall i: nat :: i < n && i % 4 == 0 ==> i < n - 4 || i == n - 4;
    }
  }

  /** Preparing the target that was just accepted covers nothing, whatever the thresholds. */
  lemma {:induction false} AcceptedNeedsNoWhite(target: seq<byte>, thresholds: Thresholds)
    ensures CoverCount(target, target, thresholds, false) == 0
  {
    if target != [] && |target| % 4 == 0 {
      CountZero(target, target, Clamped(thresholds), false, |target|);
    }
  }

  /** The white pre-pass settles the matter: over its own result the target needs no further white. */
  lemma {:induction false} WhiteSettles(previous: seq<byte>, target: seq<byte>, thresholds: Thresholds, cleanup: bool)
    requires CoverCount(previous, target, thresholds, cleanup) > 0
    ensures CoverCount(Intermediate(previous, target, thresholds, cleanup), target, thresholds, false) == 0
  {
    var white := Intermediate(previous, target, thresholds, cleanup);
    var t := Clamped(thresholds);
    hide Covers;
    forall i: nat | i < |target| && i % 4 == 0 ensures !Covers(white, target, t, false, i) {
      WhitePixel(previous, target, thresholds, cleanup, i);
      SettledPixel(white, target, t, i);
    }
    CountZero(white, target, t, false, |target|);
  }

  lemma WhitePixel(previous: seq<byte>, target: seq<byte>, thresholds: Thresholds, cleanup: bool, i: nat)
    requires CoverCount(previous, target, thresholds, cleanup) > 0 && i < |target| && i % 4 == 0
    ensures var white := Intermediate(previous, target, thresholds, cleanup);
            && |white| == |target| && i + 4 <= |target|
            && ((white[i] == target[i] && white[i + 1] == target[i + 1] && white[i + 2] == target[i + 2])
                || (white[i] == 255 && white[i + 1] == 255 && white[i + 2] == 255))
  {
    hide Covers, Clamped;
    assert i / 4 * 4 == i && (i + 1) / 4 * 4 == i && (i + 2) / 4 * 4 == i;
  }

  lemma SettledPixel(white: seq<byte>, target: seq<byte>, t: Thresholds, i: nat)
    requires |white| == |target| && i + 4 <= |target| && 1 <= t.change && t.nearWhite <= 255
    requires (white[i] == target[i] && white[i + 1] == target[i + 1] && white[i + 2] == target[i + 2])
             || (white[i] == 255 && white[i + 1] == 255 && white[i + 2] == 255)
    ensures !Covers(white, target, t, false, i)
  {
  }

  /** A forced cleanup covers every pixel the history would have. */
  lemma {:induction false} CleanupCoversMore(previous: seq<byte>, target: seq<byte>, thresholds: Thresholds)
    ensures CoverCount(previous, target, thresholds, false) <= CoverCount(previous, target, thresholds, true)
  {
    if Usable(previous, target, false) { CoveredMore(previous, target, Clamped(thresholds), |target|); }
  }

  lemma {:induction false} CoveredMore(previous: seq<byte>, target: seq<byte>, t: Thresholds, n: nat)
    requires n <= |target| && n % 4 == 0
    ensures Covered(previous, target, t, false, n) <= Covered(previous, target, t, true, n)
    decreases n
  {
    if n > 0 { CoveredMore(previous, target, t, n - 4); }
  }

  /** The image after n bytes of the loop. */
  ghost predicate Whitened(previous: seq<byte>, target: seq<byte>, t: Thresholds, cleanup: bool, s: seq<byte>, n: nat)
    requires n <= |target| && n % 4 == 0 && |target| % 4 == 0
  {
    if Covered(previous, target, t, cleanup, n) == 0 then s == []
    else
      && |s| == |target|
      && forall i :: 0 <= i < |target| ==>
           s[i] == if i < n && Covers(previous, target, t, cleanup, i / 4 * 4) then 255 else target[i]
  }

  lemma {:induction false} WhitenedStep(previous: seq<byte>, target: seq<byte>, t: Thresholds, cleanup: bool,
      s: seq<byte>, n: nat, more: seq<byte>)
    requires |target| % 4 == 0 && n % 4 == 0 && n + 4 <= |target|
    requires Whitened(previous, target, t, cleanup, s, n)
    requires Covers(previous, target, t, cleanup, n) ==> more == FilledFour(if s == [] then target else s, n)
    requires !Covers(previous, target, t, cleanup, n) ==> more == s
    ensures Whitened(previous, target, t, cleanup, more, n + 4)
  {
    hide Covers;
    CountZero(previous, target, t, cleanup, n);
    if Covers(previous, target, t, cleanup, n) {
      forall i | 0 <= i < |target|
        ensures more[i] == if i < n + 4 && Covers(previous, target, t, cleanup, i / 4 * 4) then 255 else target[i]
      {
        if i < n { assert i / 4 * 4 < n && i / 4 * 4 % 4 == 0; } else if i < n + 4 { assert i / 4 * 4 == n; }
      }
    } else {
      assert forall i :: n <= i < n + 4 ==> i / 4 * 4 == n;
    }
  }

  function FilledFour(s: seq<byte>, n: nat): (r: seq<byte>)
    requires n + 4 <= |s|
    ensures |r| == |s|
  {
    s[..n] + [255, 255, 255, 255] + s[n + 4..]
  }

  class ColorQualityHistory {
    var previous: seq<byte>

    constructor ()
      ensures previous == []
    {
      previous := [];
    }

    /** Never advances the history. */
    method Prepare(target: seq<byte>, thresholds: Thresholds, cleanup: bool)
        returns (count: nat, intermediate: seq<byte>)
      ensures count == CoverCount(previous, target, thresholds, cleanup)
      ensures intermediate == Intermediate(previous, target, thresholds, cleanup)
    {
      intermediate := [];
      if target == [] || |target| % 4 != 0 { return 0, []; }
      var t := Clamped(thresholds);
      var history := |previous| == |target|;
      if !history && !cleanup { return 0, []; }
      count := 0;
      var i := 0;
      hide Whitened, Covers, Clamped;
      WhitenedStart(previous, target, t, cleanup);
      while i < |target|
        invariant 0 <= i <= |target| && i % 4 == 0
        invariant count == Covered(previous, target, t, cleanup, i)
        invariant Whitened(previous, target, t, cleanup, intermediate, i)
        invariant intermediate == [] <==> count == 0
        invariant intermediate != [] ==> |intermediate| == |target|
      {
        var covers := CoversPixel(previous, target, t, cleanup, history, i);
        ghost var was := intermediate;
        if covers {
          if count == 0 { intermediate := target; }
          count := count + 1;
          intermediate := FilledFour(intermediate, i);
        }
        WhitenedStep(previous, target, t, cleanup, was, i, intermediate);
        i := i + 4;
      }
      WhitenedEnd(previous, target, thresholds, cleanup, intermediate);
    }

    method Accept(target: seq<byte>)
      modifies this
      ensures previous == if |target| % 4 == 0 then target else []
    {
      if target == [] || |target| % 4 != 0 {
        Reset();
        return;
      }
      previous := target;
    }

    method Reset()
      modifies this
      ensures previous == []
    {
      previous := [];
    }
  }

  lemma WhitenedStart(previous: seq<byte>, target: seq<byte>, t: Thresholds, cleanup: bool)
    requires |target| % 4 == 0
    ensures Whitened(previous, target, t, cleanup, [], 0)
  {
  }

  lemma {:induction false} WhitenedEnd(previous: seq<byte>, target: seq<byte>, thresholds: Thresholds, cleanup: bool,
      s: seq<byte>)
    requires Usable(previous, target, cleanup)
    requires Whitened(previous, target, Clamped(thresholds), cleanup, s, |target|)
    ensures s == Intermediate(previous, target, thresholds, cleanup)
  {
    hide Covers, Clamped;
  }

  /** The body's `continue` tests. */
  method CoversPixel(previous: seq<byte>, target: seq<byte>, t: Thresholds, cleanup: bool, history: bool, i: nat)
      returns (covers: bool)
    requires i + 4 <= |target| && history == (|previous| == |target|) && (history || cleanup)
    ensures covers == Covers(previous, target, t, cleanup, i)
  {
    var hi := Max(Max(target[i], target[i + 1]), target[i + 2]);
    var lo := Min(Min(target[i], target[i + 1]), target[i + 2]);
    if hi - lo < t.chroma { return false; }
    if !cleanup && history {
      var oldMin := Min(Min(previous[i], previous[i + 1]), previous[i + 2]);
      if oldMin >= t.nearWhite { return false; }
      var change := Max(Max(Gap(target[i], previous[i]), Gap(target[i + 1], previous[i + 1])),
        Gap(target[i + 2], previous[i + 2]));
      if change < t.change { return false; }
    }
    return true;
  }
}
