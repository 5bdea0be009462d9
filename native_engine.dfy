/**
 * The native OCR engine's coordination logic: the accelerator fallback chain
 * used at creation, and the box post-processing of `Process` (merging of
 * nearby boxes, filtering and capping, ordering by area, and the filter on
 * recognition results). The detector and recognizer networks are abstract:
 * their creation is a success predicate per accelerator, detection is the
 * list of boxes it returned, and recognition is a function of the box.
 */
module NativeEngine {
  import opened Wrappers
  import opened Accelerators

  // ---------------------------------------------------------------------------
  // Creation with accelerator fallback

  /** The accelerators creation may try, in order: GPU first, then CPU. */
  const FallbackChain: seq<AcceleratorType> := [GPU, CPU]

  /** Where in the chain a request starts: GPU and NPU at GPU, CPU at CPU. */
  function FallbackStartIndex(requested: AcceleratorType): (i: nat)
    ensures i < |FallbackChain|
    ensures FallbackChain[i] == (if requested == CPU then CPU else GPU)
  {
    match requested
    case GPU => 0
    case NPU => 0
    case CPU => 1
  }

  /** The first accelerator of `chain[i..]` on which both networks can be created. */
  function FirstWorking(chain: seq<AcceleratorType>, i: nat,
                        detectorOk: AcceleratorType -> bool,
                        recognizerOk: AcceleratorType -> bool): (r: Option<AcceleratorType>)
    ensures r.Some? ==> i < |chain| && r.value in chain[i..] && detectorOk(r.value) && recognizerOk(r.value)
    decreases |chain| - i
  {
    if i >= |chain| then None
    else if detectorOk(chain[i]) && recognizerOk(chain[i]) then Some(chain[i])
    else FirstWorking(chain, i + 1, detectorOk, recognizerOk)
  }

  lemma {:induction false} FirstWorkingIsFirst(chain: seq<AcceleratorType>, i: nat,
                                               detectorOk: AcceleratorType -> bool,
                                               recognizerOk: AcceleratorType -> bool)
    ensures var r := FirstWorking(chain, i, detectorOk, recognizerOk);
      (r.Some? <==> exists k :: i <= k < |chain| && detectorOk(chain[k]) && recognizerOk(chain[k]))
      && (r.Some? ==>
            (exists k :: i <= k < |chain| && chain[k] == r.value
               && detectorOk(chain[k]) && recognizerOk(chain[k])
               && (forall m :: i <= m < k ==> !(detectorOk(chain[m]) && recognizerOk(chain[m])))))
    decreases |chain| - i
  {
    if i < |chain| && !(detectorOk(chain[i]) && recognizerOk(chain[i])) {
      FirstWorkingIsFirst(chain, i + 1, detectorOk, recognizerOk);
    }
  }

  /**
   * `OcrEngine::Create`: try each accelerator from the start index on; the
   * first where detector and recognizer are both created becomes the active
   * accelerator. `None` stands for the null engine.
   */
  method Create(requested: AcceleratorType,
                detectorOk: AcceleratorType -> bool,
                recognizerOk: AcceleratorType -> bool) returns (active: Option<AcceleratorType>)
    ensures active == FirstWorking(FallbackChain, FallbackStartIndex(requested), detectorOk, recognizerOk)
    ensures active.Some? ==> active.value != NPU
  {
    var i := FallbackStartIndex(requested);
    while i < |FallbackChain|
      invariant FallbackStartIndex(requested) <= i <= |FallbackChain|
      invariant FirstWorking(FallbackChain, FallbackStartIndex(requested), detectorOk, recognizerOk)
             == FirstWorking(FallbackChain, i, detectorOk, recognizerOk)
    {
      var current := FallbackChain[i];
      if detectorOk(current) {
        if recognizerOk(current) {
          return Some(current);
        }
      }
      i := i + 1;
    }
    return None;
  }

  /** The active accelerator is never NPU, whatever was requested. */
  lemma ActiveNeverNpu(requested: AcceleratorType,
                       detectorOk: AcceleratorType -> bool,
                       recognizerOk: AcceleratorType -> bool)
    ensures FirstWorking(FallbackChain, FallbackStartIndex(requested), detectorOk, recognizerOk) != Some(NPU)
  {
    var s := FallbackStartIndex(requested);
    if s == 0 && !(detectorOk(GPU) && recognizerOk(GPU)) {
      assert FirstWorking(FallbackChain, 0, detectorOk, recognizerOk)
          == FirstWorking(FallbackChain, 1, detectorOk, recognizerOk);
    }
  }

  /** A CPU request never tries GPU; a GPU or NPU request falls back to CPU only when GPU fails. */
  lemma FallbackOutcomes(requested: AcceleratorType,
                         detectorOk: AcceleratorType -> bool,
                         recognizerOk: AcceleratorType -> bool)
    ensures var r := FirstWorking(FallbackChain, FallbackStartIndex(requested), detectorOk, recognizerOk);
      var gpu, cpu := detectorOk(GPU) && recognizerOk(GPU), detectorOk(CPU) && recognizerOk(CPU);
      && (requested == CPU ==> r == (if cpu then Some(CPU) else None))
      && (requested != CPU ==> r == (if gpu then Some(GPU) else if cpu then Some(CPU) else None))
  {
    var s := FallbackStartIndex(requested);
    assert FirstWorking(FallbackChain, 2, detectorOk, recognizerOk) == None;
    assert FallbackChain[1] == CPU;
    if s == 0 {
      assert FallbackChain[0] == GPU;
    }
  }
  // ---------------------------------------------------------------------------
  // Boxes and their merging

  /** A detected text box: centre, size, rotation and detection confidence. */
  datatype RotatedRect = RotatedRect(
    centerX: real, centerY: real, width: real, height: real, angle: real, confidence: real)

  function Abs(x: real): real { if x < 0.0 then -x else x }
  function Min(a: real, b: real): real { if a <= b then a else b }
  function Max(a: real, b: real): real { if a >= b then a else b }

  /** Axis-aligned extents of a box (its rotation is ignored, as in the source). */
  function Left(b: RotatedRect): real { b.centerX - b.width / 2.0 }
  function Right(b: RotatedRect): real { b.centerX + b.width / 2.0 }
  function Top(b: RotatedRect): real { b.centerY - b.height / 2.0 }
  function Bottom(b: RotatedRect): real { b.centerY + b.height / 2.0 }

  /** The axis-aligned extents of `outer` include those of `inner`. */
  predicate Covers(outer: RotatedRect, inner: RotatedRect) {
    Left(outer) <= Left(inner) && Right(inner) <= Right(outer)
    && Top(outer) <= Top(inner) && Bottom(inner) <= Bottom(outer)
  }

  /**
   * Two boxes are merged when they sit on one baseline (vertical offset under
   * 15% of their mean height) and their horizontal gap is under 20% of it.
   */
  predicate ShouldMerge(b1: RotatedRect, b2: RotatedRect)
    ensures b1.height + b2.height <= 0.0 ==> !ShouldMerge(b1, b2)
  {
    var hAvg := (b1.height + b2.height) / 2.0;
    Abs(b1.centerY - b2.centerY) < hAvg * 0.15
    && Abs(b1.centerX - b2.centerX) - (b1.width + b2.width) / 2.0 < hAvg * 0.20
  }

  /** The merge test does not depend on which box comes first. */
  lemma ShouldMergeSymmetric(b1: RotatedRect, b2: RotatedRect)
    ensures ShouldMerge(b1, b2) <==> ShouldMerge(b2, b1)
  {
    assert Abs(b1.centerY - b2.centerY) == Abs(b2.centerY - b1.centerY);
    assert Abs(b1.centerX - b2.centerX) == Abs(b2.centerX - b1.centerX);
  }

  /** The box that replaces `b1` when `b2` is merged into it. */
  function MergeBoxes(b1: RotatedRect, b2: RotatedRect): (m: RotatedRect)
    ensures Left(m) == Min(Left(b1), Left(b2)) && Right(m) == Max(Right(b1), Right(b2))
    ensures Top(m) == Min(Top(b1), Top(b2)) && Bottom(m) == Max(Bottom(b1), Bottom(b2))
    ensures Covers(m, b1) && Covers(m, b2)
    ensures m.confidence == Max(b1.confidence, b2.confidence)
    ensures m.confidence >= b1.confidence && m.confidence >= b2.confidence
    ensures m.angle == b1.angle
  {
    var minX := Min(Left(b1), Left(b2));
    var maxX := Max(Right(b1), Right(b2));
    var minY := Min(Top(b1), Top(b2));
    var maxY := Max(Bottom(b1), Bottom(b2));
    b1.(centerX := (minX + maxX) / 2.0, centerY := (minY + maxY) / 2.0,
        width := maxX - minX, height := maxY - minY,
        confidence := Max(b1.confidence, b2.confidence))
  }

  datatype Pair = Pair(i: nat, j: nat)

  predicate NoMergeablePair(b: seq<RotatedRect>) {
    forall p, q :: 0 <= p < q < |b| ==> !ShouldMerge(b[p], b[q])
  }

  /** The first `k >= j` whose box should be merged into box `i`. */
  function FirstPartner(b: seq<RotatedRect>, i: nat, j: nat): (r: Option<nat>)
    requires i < |b|
    ensures r.Some? ==> j <= r.value < |b| && ShouldMerge(b[i], b[r.value])
    ensures r.Some? ==> forall k :: j <= k < r.value ==> !ShouldMerge(b[i], b[k])
    ensures r.None? ==> forall k :: j <= k < |b| ==> !ShouldMerge(b[i], b[k])
    decreases |b| - j
  {
    if j >= |b| then None
    else if ShouldMerge(b[i], b[j]) then Some(j)
    else FirstPartner(b, i, j + 1)
  }

  /** The first pair, row by row from row `i`, that the scan of the merge loop finds. */
  function FirstPair(b: seq<RotatedRect>, i: nat): (r: Option<Pair>)
    ensures r.Some? ==> i <= r.value.i < r.value.j < |b| && ShouldMerge(b[r.value.i], b[r.value.j])
    ensures r.None? ==> forall p, q :: i <= p < q < |b| ==> !ShouldMerge(b[p], b[q])
    decreases |b| - i
  {
    if i >= |b| then None
    else match FirstPartner(b, i, i + 1)
      case Some(j) => Some(Pair(i, j))
      case None => FirstPair(b, i + 1)
  }

  /** Replace box `i` by its merge with box `j`, then erase box `j`. */
  function MergeStep(b: seq<RotatedRect>, p: Pair): (r: seq<RotatedRect>)
    requires p.i < p.j < |b|
    ensures |r| == |b| - 1
  {
    var b1 := b[p.i := MergeBoxes(b[p.i], b[p.j])];
    b1[..p.j] + b1[p.j + 1..]
  }

  /**
   * What `MergeNearbyBoxesPrecision` leaves in the vector: merge the first
   * mergeable pair and rescan until no pair is left. Each step erases one box.
   */
  function MergeAll(b: seq<RotatedRect>): (r: seq<RotatedRect>)
    ensures |r| <= |b|
    ensures NoMergeablePair(r)
    decreases |b|
  {
    match FirstPair(b, 0)
    case None => b
    case Some(p) => MergeAll(MergeStep(b, p))
  }

  /** Fewer than two boxes are left as they are. */
  lemma MergeAllSmall(b: seq<RotatedRect>)
    requires |b| < 2
    ensures MergeAll(b) == b
  {
    assert FirstPair(b, 0).None?;
  }

  lemma MergeStepCovers(b: seq<RotatedRect>, p: Pair, k: nat)
    requires p.i < p.j < |b| && k < |b|
    ensures exists m :: 0 <= m < |MergeStep(b, p)| && Covers(MergeStep(b, p)[m], b[k])
  {
    var r := MergeStep(b, p);
    if k == p.i || k == p.j {
      assert Covers(r[p.i], b[k]);
    } else if k < p.j {
      assert r[k] == b[k];
      assert Covers(r[k], b[k]);
    } else {
      assert r[k - 1] == b[k];
      assert Covers(r[k - 1], b[k]);
    }
  }

  /** Merging loses no area: every input box lies within the extents of some output box. */
  lemma {:induction false} MergeAllCovers(b: seq<RotatedRect>, k: nat)
    requires k < |b|
    ensures exists m :: 0 <= m < |MergeAll(b)| && Covers(MergeAll(b)[m], b[k])
    decreases |b|
  {
    match FirstPair(b, 0)
    case None =>
      assert MergeAll(b) == b;
      assert Covers(MergeAll(b)[k], b[k]);
    case Some(p) =>
      var s := MergeStep(b, p);
      MergeStepCovers(b, p, k);
      var m :| 0 <= m < |s| && Covers(s[m], b[k]);
      MergeAllCovers(s, m);
      var m' :| 0 <= m' < |MergeAll(s)| && Covers(MergeAll(s)[m'], s[m]);
      assert Covers(MergeAll(b)[m'], b[k]);
  }

  /** The inner `for j` scan of row `i`: the first later box that box `i` merges with. */
  method ScanRow(b: seq<RotatedRect>, i: nat) returns (partner: Option<nat>)
    requires i < |b|
    ensures partner == FirstPartner(b, i, i + 1)
  {
    var j := i + 1;
    while j < |b|
      invariant i + 1 <= j <= |b|
      invariant FirstPartner(b, i, i + 1) == FirstPartner(b, i, j)
    {
      if ShouldMerge(b[i], b[j]) {
        return Some(j);
      }
      j := j + 1;
    }
    partner := None;
  }

  /** The outer `for i` scan: rows in order until one has a partner. */
  method ScanPairs(b: seq<RotatedRect>) returns (pair: Option<Pair>)
    ensures pair == FirstPair(b, 0)
  {
    var i := 0;
    while i < |b|
      invariant 0 <= i <= |b|
      invariant FirstPair(b, 0) == FirstPair(b, i)
    {
      var partner := ScanRow(b, i);
      if partner.Some? {
        return Some(Pair(i, partner.value));
      }
      i := i + 1;
    }
    pair := None;
  }

  /**
   * `MergeNearbyBoxesPrecision`: the `while (merged)` loop around the two
   * nested scans, merging into box `i` and erasing box `j` in place (the
   * vector is passed by reference; here it is returned).
   */
  method MergeNearbyBoxesPrecision(boxes: seq<RotatedRect>) returns (out: seq<RotatedRect>)
    ensures out == MergeAll(boxes)
  {
    out := boxes;
    if |out| < 2 {
      MergeAllSmall(out);
      return;
    }
    var merged := true;
    while merged
      invariant MergeAll(out) == MergeAll(boxes)
      invariant !merged ==> FirstPair(out, 0).None?
      decreases |out| + (if merged then 1 else 0)
    {
      merged := false;
      var pair := ScanPairs(out);
      if pair.Some? {
        var (i, j) := (pair.value.i, pair.value.j);
        ghost var before := out;
        out := out[i := MergeBoxes(out[i], out[j])];
        out := out[..j] + out[j + 1..];
        assert out == MergeStep(before, Pair(i, j));
        merged := true;
      }
    }
  }
  // ---------------------------------------------------------------------------
  // Filtering and capping

  const MIN_BOX_AREA: real := 4.0
  const MAX_BOXES_PER_FRAME: nat := 200
  const MIN_CONFIDENCE_THRESHOLD: real := 0.0

  function Area(b: RotatedRect): (a: real)
    ensures b.width >= 0.0 && b.height >= 0.0 ==> a >= 0.0
    ensures b.width == 0.0 || b.height == 0.0 ==> a == 0.0
  {
    b.width * b.height
  }

  predicate LargeEnough(b: RotatedRect) { Area(b) >= MIN_BOX_AREA }

  /** The boxes of area at least 4, in their original order. */
  function KeepLarge(b: seq<RotatedRect>): (r: seq<RotatedRect>)
    ensures |r| <= |b|
    ensures forall k :: 0 <= k < |r| ==> LargeEnough(r[k]) && r[k] in b
  {
    if b == [] then []
    else KeepLarge(b[..|b| - 1]) + (if LargeEnough(b[|b| - 1]) then [b[|b| - 1]] else [])
  }

  lemma {:induction false} KeepLargeAppend(a: seq<RotatedRect>, b: seq<RotatedRect>)
    ensures KeepLarge(a + b) == KeepLarge(a) + KeepLarge(b)
    decreases |b|
  {
    if b == [] {
      assert a + b == a;
    } else {
      var c := b[..|b| - 1];
      assert (a + b)[..|a + b| - 1] == a + c;
      KeepLargeAppend(a, c);
    }
  }

  /** What the filter loop of `Process` builds: the large boxes, at most 200 of them. */
  function FilterAndCap(b: seq<RotatedRect>): (r: seq<RotatedRect>)
    ensures |r| <= MAX_BOXES_PER_FRAME
    ensures r <= KeepLarge(b)
    ensures |KeepLarge(b)| <= MAX_BOXES_PER_FRAME ==> r == KeepLarge(b)
    ensures forall k :: 0 <= k < |r| ==> LargeEnough(r[k])
  {
    var k := KeepLarge(b);
    if |k| <= MAX_BOXES_PER_FRAME then k else k[..MAX_BOXES_PER_FRAME]
  }

  /** The loop that copies large boxes into `filtered_boxes`, stopping at the cap. */
  method FilterBoxes(boxes: seq<RotatedRect>) returns (filtered: seq<RotatedRect>)
    ensures filtered == FilterAndCap(boxes)
  {
    filtered := [];
    var k := 0;
    while k < |boxes|
      invariant 0 <= k <= |boxes|
      invariant filtered == KeepLarge(boxes[..k])
      invariant |filtered| < MAX_BOXES_PER_FRAME
    {
      var box := boxes[k];
      assert boxes[..k + 1][..k] == boxes[..k];
      if LargeEnough(box) {
        filtered := filtered + [box];
        if |filtered| >= MAX_BOXES_PER_FRAME {
          KeepLargeAppend(boxes[..k + 1], boxes[k + 1..]);
          assert boxes[..k + 1] + boxes[k + 1..] == boxes;
          assert (filtered + KeepLarge(boxes[k + 1..]))[..MAX_BOXES_PER_FRAME] == filtered;
          break;
        }
      }
      k := k + 1;
    }
    if k == |boxes| {
      assert boxes[..k] == boxes;
    }
  }

  // ---------------------------------------------------------------------------
  // Ordering by area

  function Iota(n: nat): (r: seq<nat>)
    ensures |r| == n && forall k :: 0 <= k < n ==> r[k] == k
  {
    if n == 0 then [] else Iota(n - 1) + [n - 1]
  }

  predicate IndicesIn(indices: seq<nat>, n: nat) {
    forall k :: 0 <= k < |indices| ==> indices[k] < n
  }

  /** The boxes picked out by an index vector, in its order. */
  function Pick(boxes: seq<RotatedRect>, indices: seq<nat>): (r: seq<RotatedRect>)
    requires IndicesIn(indices, |boxes|)
    ensures |r| == |indices| && forall k :: 0 <= k < |r| ==> r[k] == boxes[indices[k]]
  {
    if indices == [] then [] else Pick(boxes, indices[..|indices| - 1]) + [boxes[indices[|indices| - 1]]]
  }

  predicate NonIncreasingArea(b: seq<RotatedRect>) {
    forall p, q :: 0 <= p < q < |b| ==> Area(b[p]) >= Area(b[q])
  }

  /** The indices of `s` are in range and their keys are non-increasing. */
  predicate SortedByKey(s: seq<nat>, keys: seq<real>) {
    forall p, q :: 0 <= p < q < |s| ==> s[p] < |keys| && s[q] < |keys| ==> keys[s[p]] >= keys[s[q]]
  }

  /** While `s[j]` moves down: all pairs in `s[..i+1]` not involving `j` are ordered, and `s[j]` beats what follows it. */
  predicate Inserting(s: seq<nat>, keys: seq<real>, i: nat, j: nat)
    requires IndicesIn(s, |keys|) && j <= i < |s|
  {
    && (forall p, q :: 0 <= p < q <= i && p != j && q != j ==> keys[s[p]] >= keys[s[q]])
    && (forall q :: j < q <= i ==> keys[s[j]] > keys[s[q]])
  }

  function Swap(s: seq<nat>, j: nat): (t: seq<nat>)
    requires 0 < j < |s|
    ensures |t| == |s| && multiset(t) == multiset(s)
  {
    var t := s[j - 1 := s[j]][j := s[j - 1]];
    assert t == s[..j - 1] + [s[j], s[j - 1]] + s[j + 1..];
    assert s == s[..j - 1] + [s[j - 1], s[j]] + s[j + 1..];
    t
  }

  lemma SwapKeepsInserting(s: seq<nat>, keys: seq<real>, i: nat, j: nat)
    requires IndicesIn(s, |keys|) && 0 < j <= i < |s|
    requires Inserting(s, keys, i, j) && keys[s[j - 1]] < keys[s[j]]
    ensures IndicesIn(Swap(s, j), |keys|) && Inserting(Swap(s, j), keys, i, j - 1)
  {
  }

  lemma InsertedIsSorted(s: seq<nat>, keys: seq<real>, i: nat, j: nat)
    requires IndicesIn(s, |keys|) && j <= i < |s|
    requires Inserting(s, keys, i, j) && (j == 0 || keys[s[j - 1]] >= keys[s[j]])
    ensures SortedByKey(s[..i + 1], keys)
  {
    forall p, q | 0 <= p < q < i + 1 ensures keys[s[p]] >= keys[s[q]] {
      if p == j || q == j {
        if q == j && p < j - 1 {
          assert keys[s[p]] >= keys[s[j - 1]];
        }
      }
    }
  }

  /** One pass of insertion: move `a[i]` down past every smaller key. */
  method InsertDown(a: array<nat>, i: nat, keys: seq<real>)
    requires i < a.Length
    requires IndicesIn(a[..], |keys|)
    requires SortedByKey(a[..i], keys)
    modifies a
    ensures IndicesIn(a[..], |keys|)
    ensures multiset(a[..]) == multiset(old(a[..]))
    ensures SortedByKey(a[..i + 1], keys)
  {
    var j := i;
    assert Inserting(a[..], keys, i, j) by {
      assert forall p :: 0 <= p < i ==> a[..][p] == a[..i][p];
    }
    while j > 0 && keys[a[j - 1]] < keys[a[j]]
      invariant 0 <= j <= i
      invariant IndicesIn(a[..], |keys|)
      invariant multiset(a[..]) == multiset(old(a[..]))
      invariant Inserting(a[..], keys, i, j)
    {
      ghost var s := a[..];
      SwapKeepsInserting(s, keys, i, j);
      a[j - 1], a[j] := a[j], a[j - 1];
      assert a[..] == Swap(s, j);
      j := j - 1;
    }
    InsertedIsSorted(a[..], keys, i, j);
  }

  /**
   * `SortBoxesByArea`: the identity permutation, sorted in place so that the
   * box areas are non-increasing. The source calls `std::sort`, whose order
   * among equal areas is unspecified; this model sorts by insertion.
   */
  method SortBoxesByArea(boxes: seq<RotatedRect>) returns (indices: seq<nat>)
    ensures |indices| == |boxes| && IndicesIn(indices, |boxes|)
    ensures multiset(indices) == multiset(Iota(|boxes|))
    ensures NonIncreasingArea(Pick(boxes, indices))
  {
    var n := |boxes|;
    var keys := seq(n, k requires 0 <= k < n => Area(boxes[k]));
    var a := new nat[n](k => k);
    assert a[..] == Iota(n);
    var i := 0;
    while i < n
      invariant 0 <= i <= n
      invariant IndicesIn(a[..], n)
      invariant multiset(a[..]) == multiset(Iota(n))
      invariant SortedByKey(a[..i], keys)
    {
      InsertDown(a, i, keys);
      i := i + 1;
    }
    indices := a[..];
    assert indices == a[..n];
    SortedPicksNonIncreasing(boxes, indices, keys);
  }

  lemma SortedPicksNonIncreasing(boxes: seq<RotatedRect>, indices: seq<nat>, keys: seq<real>)
    requires IndicesIn(indices, |boxes|) && |keys| == |boxes|
    requires forall k :: 0 <= k < |boxes| ==> keys[k] == Area(boxes[k])
    requires SortedByKey(indices, keys)
    ensures NonIncreasingArea(Pick(boxes, indices))
  {
    var b := Pick(boxes, indices);
    forall p, q | 0 <= p < q < |b| ensures Area(b[p]) >= Area(b[q]) {
      assert b[p] == boxes[indices[p]] && b[q] == boxes[indices[q]];
    }
  }

  /** Removing one occurrence of `x` from both sides of equal multisets. */
  lemma RemoveOne(s': seq<nat>, x: nat, t: seq<nat>, k: nat)
    requires k < |t| && t[k] == x
    requires multiset(s' + [x]) == multiset(t)
    ensures multiset(s') == multiset(t[..k] + t[k + 1..])
  {
    var r := t[..k] + t[k + 1..];
    assert t == t[..k] + [x] + t[k + 1..];
    assert multiset(t) == multiset(r) + multiset{x};
    assert multiset(s' + [x]) == multiset(s') + multiset{x};
    assert multiset(s') == multiset(s') + multiset{x} - multiset{x};
    assert multiset(r) == multiset(r) + multiset{x} - multiset{x};
  }

  lemma DropIndicesIn(t: seq<nat>, n: nat, k: nat)
    requires IndicesIn(t, n) && k < |t|
    ensures IndicesIn(t[..k] + t[k + 1..], n)
  {
    var r := t[..k] + t[k + 1..];
    forall j | 0 <= j < |r| ensures r[j] < n {
      if j < k { assert r[j] == t[j]; } else { assert r[j] == t[j + 1]; }
    }
  }

  lemma PickDrop(boxes: seq<RotatedRect>, t: seq<nat>, k: nat)
    requires IndicesIn(t, |boxes|) && k < |t| && IndicesIn(t[..k] + t[k + 1..], |boxes|)
    ensures Pick(boxes, t[..k] + t[k + 1..]) == Pick(boxes, t)[..k] + Pick(boxes, t)[k + 1..]
  {
    var r := t[..k] + t[k + 1..];
    var pt, pr := Pick(boxes, t), Pick(boxes, r);
    forall j | 0 <= j < |pr| ensures pr[j] == (pt[..k] + pt[k + 1..])[j] {
      if j < k { assert r[j] == t[j]; } else { assert r[j] == t[j + 1]; }
    }
  }

  /** Dropping the index at position `k` drops exactly box `boxes[t[k]]` from the picked multiset. */
  lemma PickRemove(boxes: seq<RotatedRect>, t: seq<nat>, k: nat)
    requires IndicesIn(t, |boxes|) && k < |t|
    ensures IndicesIn(t[..k] + t[k + 1..], |boxes|)
    ensures multiset(Pick(boxes, t)) == multiset(Pick(boxes, t[..k] + t[k + 1..])) + multiset{boxes[t[k]]}
  {
    DropIndicesIn(t, |boxes|, k);
    PickDrop(boxes, t, k);
    MultisetSplit(Pick(boxes, t), k);
  }

  lemma MultisetSplit<T>(s: seq<T>, k: nat)
    requires k < |s|
    ensures multiset(s) == multiset(s[..k] + s[k + 1..]) + multiset{s[k]}
  {
    assert s == s[..k] + [s[k]] + s[k + 1..];
  }

  /** A permutation of the indices picks the same boxes, counted with multiplicity. */
  lemma {:induction false} PickPermutation(boxes: seq<RotatedRect>, s: seq<nat>, t: seq<nat>)
    requires IndicesIn(s, |boxes|) && IndicesIn(t, |boxes|)
    requires multiset(s) == multiset(t)
    ensures multiset(Pick(boxes, s)) == multiset(Pick(boxes, t))
    decreases |s|
  {
    if s != [] {
      var x := s[|s| - 1];
      var s' := s[..|s| - 1];
      assert s == s' + [x];
      assert x in multiset(t);
      var k :| 0 <= k < |t| && t[k] == x;
      var r := t[..k] + t[k + 1..];
      RemoveOne(s', x, t, k);
      PickRemove(boxes, t, k);
      PickPermutation(boxes, s', r);
      assert Pick(boxes, s) == Pick(boxes, s') + [boxes[x]];
    } else {
      assert |t| == |multiset(t)| == 0;
    }
  }

  /** The sorted index vector picks every box exactly once. */
  lemma SortedIndicesPickAll(boxes: seq<RotatedRect>, indices: seq<nat>)
    requires IndicesIn(indices, |boxes|)
    requires multiset(indices) == multiset(Iota(|boxes|))
    ensures multiset(Pick(boxes, indices)) == multiset(boxes)
  {
    PickIota(boxes);
    PickPermutation(boxes, indices, Iota(|boxes|));
  }

  /** The identity index vector picks the boxes as they are. */
  lemma PickIota(boxes: seq<RotatedRect>)
    ensures IndicesIn(Iota(|boxes|), |boxes|)
    ensures Pick(boxes, Iota(|boxes|)) == boxes
  {
    var iota := Iota(|boxes|);
    var all := Pick(boxes, iota);
    forall k | 0 <= k < |boxes| ensures all[k] == boxes[k] {
      assert iota[k] == k;
    }
  }

  // ---------------------------------------------------------------------------
  // Recognition and the whole of Process

  /** What the recognizer returns for one box. */
  datatype Recognition = Recognition(text: string, confidence: real)

  /** One emitted result: recognised text, its confidence and the box. */
  datatype NativeResult = NativeResult(text: string, confidence: real, box: RotatedRect)

  predicate Accepted(r: Recognition) {
    r.text != [] && r.confidence >= MIN_CONFIDENCE_THRESHOLD
  }

  /** The boxes whose recognition is kept: non-empty text and confidence >= 0. */
  function Recognised(b: seq<RotatedRect>, recognize: RotatedRect -> Recognition): (r: seq<RotatedRect>)
    ensures |r| <= |b|
  {
    if b == [] then []
    else Recognised(b[..|b| - 1], recognize)
         + (if Accepted(recognize(b[|b| - 1])) then [b[|b| - 1]] else [])
  }

  function BoxesOf(results: seq<NativeResult>): (r: seq<RotatedRect>)
    ensures |r| == |results| && forall k :: 0 <= k < |r| ==> r[k] == results[k].box
  {
    if results == [] then [] else BoxesOf(results[..|results| - 1]) + [results[|results| - 1].box]
  }

  /** Every emitted result is the recognizer's own answer for its box, with text and a non-negative confidence. */
  predicate Emitted(results: seq<NativeResult>, recognize: RotatedRect -> Recognition) {
    forall m :: 0 <= m < |results| ==>
      results[m].text != [] && results[m].confidence >= 0.0
      && recognize(results[m].box) == Recognition(results[m].text, results[m].confidence)
  }

  /** Appending an accepted answer of the recognizer for its box keeps the results emitted, and appends its box. */
  lemma EmittedSnoc(results: seq<NativeResult>, r: NativeResult, recognize: RotatedRect -> Recognition)
    requires Emitted(results, recognize)
    requires r.text != [] && r.confidence >= 0.0 && recognize(r.box) == Recognition(r.text, r.confidence)
    ensures Emitted(results + [r], recognize)
    ensures BoxesOf(results + [r]) == BoxesOf(results) + [r.box]
  {
    assert (results + [r])[..|results|] == results;
  }

  /** One step of the recognition loop: the results stay emitted and follow the recognised prefix. */
  lemma RecognizeStep(results: seq<NativeResult>, picked: seq<RotatedRect>, k: nat,
                      recognize: RotatedRect -> Recognition)
    requires k < |picked|
    requires BoxesOf(results) == Recognised(picked[..k], recognize) && Emitted(results, recognize)
    ensures var rec := recognize(picked[k]);
            var next := if Accepted(rec) then results + [NativeResult(rec.text, rec.confidence, picked[k])] else results;
            BoxesOf(next) == Recognised(picked[..k + 1], recognize) && Emitted(next, recognize)
  {
    var rec := recognize(picked[k]);
    RecognisedSnoc(picked, k, recognize);
    if Accepted(rec) {
      EmittedSnoc(results, NativeResult(rec.text, rec.confidence, picked[k]), recognize);
    }
  }

  /** One more box of the prefix is kept exactly when its recognition is accepted. */
  lemma RecognisedSnoc(s: seq<RotatedRect>, k: nat, recognize: RotatedRect -> Recognition)
    requires k < |s|
    ensures Recognised(s[..k + 1], recognize)
         == Recognised(s[..k], recognize) + (if Accepted(recognize(s[k])) then [s[k]] else [])
  {
    assert s[..k + 1][..k] == s[..k];
  }

  lemma {:induction false} RecognisedMultiset(s: seq<RotatedRect>, recognize: RotatedRect -> Recognition, x: RotatedRect)
    ensures multiset(Recognised(s, recognize))[x] == if Accepted(recognize(x)) then multiset(s)[x] else 0
    decreases |s|
  {
    if s != [] {
      var s' := s[..|s| - 1];
      assert s == s' + [s[|s| - 1]];
      RecognisedMultiset(s', recognize, x);
    }
  }

  /** Keeping the accepted boxes commutes with permuting them. */
  lemma RecognisedPermutation(s: seq<RotatedRect>, t: seq<RotatedRect>, recognize: RotatedRect -> Recognition)
    requires multiset(s) == multiset(t)
    ensures multiset(Recognised(s, recognize)) == multiset(Recognised(t, recognize))
  {
    forall x ensures multiset(Recognised(s, recognize))[x] == multiset(Recognised(t, recognize))[x] {
      RecognisedMultiset(s, recognize, x);
      RecognisedMultiset(t, recognize, x);
    }
  }

  /** The boxes that reach recognition: merged, then filtered and capped. */
  function BoxesForRecognition(detected: seq<RotatedRect>): seq<RotatedRect> {
    FilterAndCap(MergeAll(detected))
  }

  /** The recognition loop: recognise the boxes in the sorted order, keep the accepted ones. */
  method RecognizeInOrder(filtered: seq<RotatedRect>, order: seq<nat>,
                          recognize: RotatedRect -> Recognition) returns (results: seq<NativeResult>)
    requires IndicesIn(order, |filtered|)
    ensures BoxesOf(results) == Recognised(Pick(filtered, order), recognize)
    ensures Emitted(results, recognize)
  {
    ghost var picked := Pick(filtered, order);
    results := [];
    var k := 0;
    while k < |order|
      invariant 0 <= k <= |order|
      invariant BoxesOf(results) == Recognised(picked[..k], recognize)
      invariant Emitted(results, recognize)
    {
      var box := filtered[order[k]];
      var rec := recognize(box);
      assert box == picked[k];
      RecognizeStep(results, picked, k, recognize);
      if rec.text != [] && rec.confidence >= MIN_CONFIDENCE_THRESHOLD {
        results := results + [NativeResult(rec.text, rec.confidence, box)];
      }
      k := k + 1;
    }
    assert picked[..k] == picked;
  }

  /**
   * `OcrEngine::Process` without its timing. `initialized` says whether the
   * detector and recognizer exist, `detected` is the detector's output and
   * `recognize` the recognizer's answer for a box of this image.
   */
  method Process(initialized: bool, detected: seq<RotatedRect>,
                 recognize: RotatedRect -> Recognition) returns (results: seq<NativeResult>)
    ensures !initialized || detected == [] ==> results == []
    ensures |results| <= MAX_BOXES_PER_FRAME
    ensures forall k :: 0 <= k < |results| ==>
      results[k].text != [] && results[k].confidence >= 0.0
      && recognize(results[k].box) == Recognition(results[k].text, results[k].confidence)
    ensures initialized ==>
      multiset(BoxesOf(results)) == multiset(Recognised(BoxesForRecognition(detected), recognize))
    ensures NonIncreasingArea(BoxesOf(results))
  {
    if !initialized || |detected| == 0 {
      return [];
    }
    var boxes := MergeNearbyBoxesPrecision(detected);
    var filtered := FilterBoxes(boxes);
    if |filtered| == 0 {
      return [];
    }
    var order := SortBoxesByArea(filtered);
    results := RecognizeInOrder(filtered, order, recognize);
    var picked := Pick(filtered, order);
    SortedIndicesPickAll(filtered, order);
    RecognisedPermutation(picked, filtered, recognize);
    RecognisedOrder(picked, recognize);
    assert |Recognised(picked, recognize)| <= |picked| == |filtered|;
  }

  /** Keeping the accepted boxes of an area-ordered list keeps the order. */
  lemma {:induction false} RecognisedOrder(s: seq<RotatedRect>, recognize: RotatedRect -> Recognition)
    requires NonIncreasingArea(s)
    ensures NonIncreasingArea(Recognised(s, recognize))
    ensures forall x :: x in Recognised(s, recognize) ==> x in s
    decreases |s|
  {
    if s != [] {
      var s', last := s[..|s| - 1], s[|s| - 1];
      assert NonIncreasingArea(s');
      RecognisedOrder(s', recognize);
      assert forall x :: x in s' ==> Area(x) >= Area(last);
    }
  }
}
