/**
 * The live camera screen's view model: a gate that decides which preview
 * frames reach the engine (a 64-sample brightness fingerprint, a stability
 * counter and a busy flag), the guard that drops results from an engine
 * that has since been replaced, engine (re)initialisation, and the
 * `copy` transforms of the Ready state. Engines are identified by a
 * generation number; the engine, the repository and the preferences are
 * outside the model except for what the view model does with them.
 */
module Camera {
  import opened Wrappers
  import opened Accelerators
  import opened Resolutions
  import opened OcrTypes

  datatype ErrorType = CameraPermissionDenied | ModelLoadFailed | AcceleratorInitFailed(fallbackTo: Option<AcceleratorType>)

  datatype CameraUiState =
    | Loading
    | Ready(
        ocrResults: seq<OcrResult>,
        benchmark: Benchmark,
        acceleratorType: AcceleratorType,
        resolutionPreset: ResolutionPreset,
        benchmarkExpanded: bool,
        flashEnabled: bool,
        frozen: bool,
        useFrontCamera: bool,
        captureFlash: bool)
    | Error(errorType: ErrorType)

  /** `CameraUiState.Ready(acceleratorType = a, resolutionPreset = r, benchmark = Benchmark())`: every other field at its default. */
  function FreshReady(a: AcceleratorType, r: ResolutionPreset): (s: CameraUiState)
    ensures s.Ready? && s.acceleratorType == a && s.resolutionPreset == r
    ensures s.ocrResults == [] && s.benchmark == DefaultBenchmark
    ensures s.benchmarkExpanded && !s.flashEnabled && !s.frozen && !s.useFrontCamera && !s.captureFlash
  {
    Ready([], DefaultBenchmark, a, r, true, false, false, false, false)
  }

  const STABILITY_THRESHOLD: int := 1
  const HASH_DIFF_THRESHOLD: int := 3000

  // ---------------------------------------------------------------------------
  // Ready-state transforms (`_uiState.update { … }`)

  /** `onResolutionChanged`: a different preset in Ready resets the benchmark; anything else is a no-op. */
  function OnResolutionChanged(s: CameraUiState, r: ResolutionPreset): (t: CameraUiState)
    ensures !s.Ready? || s.resolutionPreset == r ==> t == s
    ensures s.Ready? && s.resolutionPreset != r ==>
              t == s.(resolutionPreset := r, benchmark := DefaultBenchmark)
  {
    if s.Ready? && s.resolutionPreset != r then s.(resolutionPreset := r, benchmark := DefaultBenchmark) else s
  }

  function ToggleBenchmarkPanel(s: CameraUiState): (t: CameraUiState)
    ensures !s.Ready? ==> t == s
    ensures s.Ready? ==> t.Ready? && t.benchmarkExpanded == !s.benchmarkExpanded
                         && t.(benchmarkExpanded := s.benchmarkExpanded) == s
  {
    if s.Ready? then s.(benchmarkExpanded := !s.benchmarkExpanded) else s
  }

  function ToggleFlash(s: CameraUiState): (t: CameraUiState)
    ensures !s.Ready? ==> t == s
    ensures s.Ready? ==> t.Ready? && t.flashEnabled == !s.flashEnabled && t.(flashEnabled := s.flashEnabled) == s
  {
    if s.Ready? then s.(flashEnabled := !s.flashEnabled) else s
  }

  function ToggleFreeze(s: CameraUiState): (t: CameraUiState)
    ensures !s.Ready? ==> t == s
    ensures s.Ready? ==> t.Ready? && t.frozen == !s.frozen && t.(frozen := s.frozen) == s
  {
    if s.Ready? then s.(frozen := !s.frozen) else s
  }

  /** `toggleCamera`: switches lens and always turns the flash off. */
  function ToggleCamera(s: CameraUiState): (t: CameraUiState)
    ensures !s.Ready? ==> t == s
    ensures s.Ready? ==> t.Ready? && t.useFrontCamera == !s.useFrontCamera && !t.flashEnabled
                         && t.(useFrontCamera := s.useFrontCamera, flashEnabled := s.flashEnabled) == s
  {
    if s.Ready? then s.(useFrontCamera := !s.useFrontCamera, flashEnabled := false) else s
  }

  function SetCaptureFlash(s: CameraUiState, on: bool): (t: CameraUiState)
    ensures !s.Ready? ==> t == s
    ensures s.Ready? ==> t.Ready? && t.captureFlash == on && t.(captureFlash := s.captureFlash) == s
  {
    if s.Ready? then s.(captureFlash := on) else s
  }

  /** The three toggles undo themselves. */
  lemma TogglesAreInvolutions(s: CameraUiState)
    ensures ToggleBenchmarkPanel(ToggleBenchmarkPanel(s)) == s
    ensures ToggleFlash(ToggleFlash(s)) == s
    ensures ToggleFreeze(ToggleFreeze(s)) == s
  {
  }

  /** Switching the camera twice restores the lens but leaves the flash off. */
  lemma ToggleCameraTwice(s: CameraUiState)
    requires s.Ready?
    ensures ToggleCamera(ToggleCamera(s)) == s.(flashEnabled := false)
  {
  }

  /** Choosing a resolution twice is the same as choosing it once. */
  lemma OnResolutionChangedIdempotent(s: CameraUiState, r: ResolutionPreset)
    ensures OnResolutionChanged(OnResolutionChanged(s, r), r) == OnResolutionChanged(s, r)
  {
  }

  // ---------------------------------------------------------------------------
  // The frame fingerprint

  /** `Color.red/green/blue`: bytes 2, 1 and 0 of the ARGB int (Dafny's `/` floors like the arithmetic shift). */
  function Red(p: int): (c: int)
    ensures 0 <= c <= 255
  {
    (p / 0x1_0000) % 256
  }

  function Green(p: int): (c: int)
    ensures 0 <= c <= 255
  {
    (p / 0x100) % 256
  }

  function Blue(p: int): (c: int)
    ensures 0 <= c <= 255
  {
    p % 256
  }

  /** The three channels are the low 24 bits of the colour, byte by byte. */
  lemma ChannelsRecompose(p: int)
    ensures Red(p) * 0x1_0000 + Green(p) * 0x100 + Blue(p) == p % 0x100_0000
  {
    var q := p / 0x100;
    assert p == q * 0x100 + Blue(p);
    assert q == (q / 0x100) * 0x100 + Green(p);
    assert p / 0x1_0000 == q / 0x100;
  }

  /** One sample's contribution: the integer mean of its three channels. */
  function Sample(p: int): (v: int)
    ensures 0 <= v <= 255
  {
    (Red(p) + Green(p) + Blue(p)) / 3
  }

  /** The first `n` samples of row `y` of the 8×8 thumbnail. */
  function RowHash(pixelAt: (int, int) -> int, y: int, n: nat): (h: int)
    ensures 0 <= h <= 255 * n
  {
    if n == 0 then 0 else RowHash(pixelAt, y, n - 1) + Sample(pixelAt(n - 1, y))
  }

  /** The samples of the first `m` rows, each row read left to right; each full row contributes at most 8 × 255. */
  function RowsHash(pixelAt: (int, int) -> int, m: nat): (h: int)
    ensures 0 <= h <= 2040 * m
  {
    if m == 0 then 0 else RowsHash(pixelAt, m - 1) + RowHash(pixelAt, m - 1, 8)
  }

  /** The fingerprint: the sum of all 64 samples, so at most 64 × 255. */
  function FrameHash(pixelAt: (int, int) -> int): (h: int)
    ensures 0 <= h <= 16320
  {
    RowsHash(pixelAt, 8)
  }

  /** `computeFrameHash`: `pixelAt(x, y)` is the pixel of the 8×8 scaled bitmap. */
  method ComputeFrameHash(pixelAt: (int, int) -> int) returns (hash: int)
    ensures hash == FrameHash(pixelAt)
    ensures 0 <= hash <= 16320
  {
    hash := 0;
    for y := 0 to 8
      invariant hash == RowsHash(pixelAt, y)
    {
      for x := 0 to 8
        invariant hash == RowsHash(pixelAt, y) + RowHash(pixelAt, y, x)
      {
        hash := hash + Sample(pixelAt(x, y));
      }
    }
  }

  /** `abs(current - last)` on the Long fingerprints. */
  function HashDistance(current: int, last: int): (d: int)
    ensures d >= 0 && (d == current - last || d == last - current)
  {
    if current < last then last - current else current - last
  }

  const INT_MIN: int := -0x8000_0000
  const INT_MAX: int := 0x7fff_ffff

  /** Kotlin's `Int` `++`: one more, except that `Int.MAX_VALUE` wraps to `Int.MIN_VALUE`. */
  function IncInt(n: int): (r: int)
    requires INT_MIN <= n <= INT_MAX
    ensures INT_MIN <= r <= INT_MAX
    ensures n < INT_MAX ==> r == n + 1
  {
    if n == INT_MAX then INT_MIN else n + 1
  }

  /** `IncInt` is two's-complement addition of 1 on 32 bits. */
  lemma IncIntWraps(n: int)
    requires INT_MIN <= n <= INT_MAX
    ensures IncInt(n) == (n + 1 - INT_MIN) % 0x1_0000_0000 + INT_MIN
  {
  }

  // ---------------------------------------------------------------------------
  // The view model

  class CameraViewModel {
    var uiState: CameraUiState
    /** The current engine's generation, or `None`. */
    var ocrEngine: Option<nat>
    var isProcessing: bool
    var lastFrameHash: int
    var stableFrameCount: int
    var hasRepository: bool
    var hasLastBitmap: bool
    /** Generations handed out so far. */
    var generations: nat
    /** Engines closed, in order. */
    ghost var closed: seq<nat>
    /** The accelerator last written to the preferences. */
    ghost var savedAccelerator: Option<AcceleratorType>
    /** Captures handed to the repository. */
    ghost var captures: nat

    /** The current engine is the newest one. */
    ghost predicate Valid()
      reads this
    {
      (ocrEngine.Some? ==> ocrEngine.value + 1 == generations)
      && INT_MIN <= stableFrameCount <= INT_MAX
    }

    constructor ()
      ensures Valid() && uiState == Loading && ocrEngine == None && !isProcessing
      ensures lastFrameHash == 0 && stableFrameCount == 0 && !hasRepository && !hasLastBitmap
      ensures closed == [] && savedAccelerator == None && captures == 0
    {
      uiState := Loading;
      ocrEngine := None;
      isProcessing := false;
      lastFrameHash := 0;
      stableFrameCount := 0;
      hasRepository := false;
      hasLastBitmap := false;
      generations := 0;
      closed := [];
      savedAccelerator := None;
      captures := 0;
    }

    /**
     * `onFrameReceived`: returns the engine an inference was started with,
     * if any. No engine, a state other than Ready, or a frozen preview
     * ignores the frame; otherwise the frame is kept (`copied` is whether
     * `bitmap.copy` returned a bitmap), the fingerprint replaces the last
     * one, a jump over the threshold resets the counter, and the busy flag
     * is taken by compare-and-set.
     */
    method OnFrameReceived(pixelAt: (int, int) -> int, copied: bool) returns (launched: Option<nat>)
      requires Valid()
      modifies this`hasLastBitmap, this`lastFrameHash, this`stableFrameCount, this`isProcessing
      ensures Valid()
      ensures old(ocrEngine).None? || !old(uiState).Ready? || old(uiState).frozen ==>
                launched == None && lastFrameHash == old(lastFrameHash) && stableFrameCount == old(stableFrameCount)
                && isProcessing == old(isProcessing) && hasLastBitmap == old(hasLastBitmap)
      ensures old(ocrEngine).Some? && old(uiState).Ready? && !old(uiState).frozen ==>
                && hasLastBitmap == copied && lastFrameHash == FrameHash(pixelAt)
                && (HashDistance(FrameHash(pixelAt), old(lastFrameHash)) > HASH_DIFF_THRESHOLD ==>
                      stableFrameCount == 0 && launched == None && isProcessing == old(isProcessing))
                && (HashDistance(FrameHash(pixelAt), old(lastFrameHash)) <= HASH_DIFF_THRESHOLD ==>
                      stableFrameCount == IncInt(old(stableFrameCount)))
      ensures launched.Some? <==>
                && old(ocrEngine).Some? && old(uiState).Ready? && !old(uiState).frozen
                && HashDistance(FrameHash(pixelAt), old(lastFrameHash)) <= HASH_DIFF_THRESHOLD
                && stableFrameCount >= STABILITY_THRESHOLD
                && !old(isProcessing)
      ensures launched.Some? ==> launched == old(ocrEngine) && isProcessing
      ensures launched.None? ==> isProcessing == old(isProcessing)
    {
      if ocrEngine.None? {
        return None;
      }
      var engine := ocrEngine.value;
      if !uiState.Ready? || uiState.frozen {
        return None;
      }
      hasLastBitmap := copied;
      var currentHash := ComputeFrameHash(pixelAt);
      var hashDiff := HashDistance(currentHash, lastFrameHash);
      lastFrameHash := currentHash;
      if hashDiff > HASH_DIFF_THRESHOLD {
        stableFrameCount := 0;
        return None;
      }
      stableFrameCount := IncInt(stableFrameCount);
      if stableFrameCount < STABILITY_THRESHOLD {
        return None;
      }
      if isProcessing {
        return None;
      }
      isProcessing := true;
      launched := Some(engine);
    }

    /**
     * The launched coroutine: `processFrame(engine, bitmap)` and then clearing
     * the busy flag. `results` is what `process` returned together with the
     * benchmark (`None` when a call threw). Results are published only while
     * the state is Ready and `engine` is still the current engine.
     */
    method FinishFrame(engine: nat, results: Option<seq<OcrResult>>, benchmark: Benchmark)
      requires Valid()
      modifies this`uiState, this`isProcessing
      ensures Valid() && !isProcessing
      ensures old(uiState).Ready? && old(ocrEngine) == Some(engine) && results.Some? ==>
                uiState == old(uiState).(ocrResults := results.value, benchmark := benchmark)
      ensures !(old(uiState).Ready? && old(ocrEngine) == Some(engine) && results.Some?) ==> uiState == old(uiState)
    {
      if uiState.Ready? && ocrEngine == Some(engine) && results.Some? {
        uiState := uiState.(ocrResults := results.value, benchmark := benchmark);
      }
      isProcessing := false;
    }

    /**
     * What `initializeEngine` leaves behind, relative to the state before it:
     * the old engine closed once, then a fresh Ready state on a new engine
     * with the accelerator the engine reports, or Error(ModelLoadFailed) and
     * no engine. The Ready resolution survives; `resolution` is used otherwise.
     */
    twostate predicate Reinitialized(resolution: ResolutionPreset, created: Option<AcceleratorType>)
      reads this
    {
      && Valid() && !isProcessing
      && (created.Some? ==>
            && uiState == FreshReady(created.value, if old(uiState).Ready? then old(uiState).resolutionPreset else resolution)
            && ocrEngine == Some(old(generations)) && generations == old(generations) + 1)
      && (created.None? ==> uiState == Error(ModelLoadFailed) && ocrEngine == None && generations == old(generations))
      && closed == old(closed) + (if old(ocrEngine).Some? then [old(ocrEngine).value] else [])
    }

    /**
     * `initializeEngine`: remember the Ready resolution (or the given one),
     * go through Loading, wait until no frame is in flight, close the old
     * engine, create the new one and end in Ready with the accelerator the
     * engine reports, or in Error(ModelLoadFailed). `created` is the created
     * engine's active accelerator, `None` when creation failed.
     */
    method InitializeEngine(requested: AcceleratorType, resolution: ResolutionPreset, created: Option<AcceleratorType>)
      requires Valid()
      modifies this`uiState, this`isProcessing, this`ocrEngine, this`generations, this`closed, this`savedAccelerator
      ensures Valid() && !isProcessing
      ensures var previous := if old(uiState).Ready? then old(uiState).resolutionPreset else resolution;
              created.Some? ==> uiState == FreshReady(created.value, previous)
      ensures created.None? ==> uiState == Error(ModelLoadFailed) && ocrEngine == None
      ensures created.Some? ==> ocrEngine == Some(old(generations)) && generations == old(generations) + 1
      ensures created.None? ==> generations == old(generations)
      ensures closed == old(closed) + (if old(ocrEngine).Some? then [old(ocrEngine).value] else [])
      ensures savedAccelerator == (if created.Some? && created.value != requested then created else old(savedAccelerator))
    {
      var previousResolution := if uiState.Ready? then uiState.resolutionPreset else resolution;
      uiState := Loading;
      // The busy-wait: an in-flight frame now sees Loading, publishes nothing and clears the flag.
      isProcessing := false;
      if ocrEngine.Some? {
        closed := closed + [ocrEngine.value];
      }
      ocrEngine := None;
      if created.Some? {
        var active := created.value;
        ocrEngine := Some(generations);
        generations := generations + 1;
        if active != requested {
          savedAccelerator := Some(active);
        }
        uiState := FreshReady(active, previousResolution);
      } else {
        uiState := Error(ModelLoadFailed);
      }
    }

    /**
     * `initialize`: take the repository, then initialise the engine with the
     * saved accelerator, at the default resolution unless Ready had one.
     */
    method Initialize(saved: AcceleratorType, created: Option<AcceleratorType>)
      requires Valid()
      modifies this`hasRepository, this`uiState, this`isProcessing, this`ocrEngine, this`generations, this`closed,
               this`savedAccelerator
      ensures hasRepository && Reinitialized(DEFAULT, created)
      ensures savedAccelerator == (if created.Some? && created.value != saved then created else old(savedAccelerator))
    {
      hasRepository := true;
      InitializeEngine(saved, DEFAULT, created);
    }

    /** `retry`: the same engine initialisation as `initialize`, leaving the repository as it was. */
    method Retry(saved: AcceleratorType, created: Option<AcceleratorType>)
      requires Valid()
      modifies this`uiState, this`isProcessing, this`ocrEngine, this`generations, this`closed, this`savedAccelerator
      ensures Reinitialized(DEFAULT, created)
      ensures savedAccelerator == (if created.Some? && created.value != saved then created else old(savedAccelerator))
    {
      InitializeEngine(saved, DEFAULT, created);
    }

    /**
     * `onAcceleratorChanged`: Ready with the same accelerator is a no-op;
     * otherwise the choice is saved and the engine re-initialised, keeping
     * the Ready resolution.
     */
    method OnAcceleratorChanged(t: AcceleratorType, created: Option<AcceleratorType>)
      requires Valid()
      modifies this`uiState, this`isProcessing, this`ocrEngine, this`generations, this`closed, this`savedAccelerator
      ensures Valid()
      ensures old(uiState).Ready? && old(uiState).acceleratorType == t ==>
                uiState == old(uiState) && ocrEngine == old(ocrEngine) && closed == old(closed)
                && savedAccelerator == old(savedAccelerator) && isProcessing == old(isProcessing)
                && generations == old(generations)
      ensures !(old(uiState).Ready? && old(uiState).acceleratorType == t) ==>
                && Reinitialized(DEFAULT, created)
                && savedAccelerator == (if created.Some? && created.value != t then created else Some(t))
    {
      if uiState.Ready? && uiState.acceleratorType == t {
        return;
      }
      savedAccelerator := Some(t);
      var resolution := if uiState.Ready? then uiState.resolutionPreset else DEFAULT;
      InitializeEngine(t, resolution, created);
    }

    /**
     * `capture`: needs a kept frame, the repository and a successful copy;
     * then the capture flash turns on in Ready and the copy goes to the
     * repository.
     */
    method Capture(copyOk: bool) returns (ok: bool)
      modifies this`uiState, this`captures
      ensures ok <==> old(hasLastBitmap) && old(hasRepository) && copyOk
      ensures ok ==> uiState == SetCaptureFlash(old(uiState), true) && captures == old(captures) + 1
      ensures !ok ==> uiState == old(uiState) && captures == old(captures)
    {
      if !hasLastBitmap || !hasRepository || !copyOk {
        return false;
      }
      uiState := SetCaptureFlash(uiState, true);
      captures := captures + 1;
      ok := true;
    }

    /** The end of the capture coroutine: the flash turns off again in Ready. */
    method FinishCapture()
      modifies this`uiState
      ensures uiState == SetCaptureFlash(old(uiState), false)
    {
      uiState := SetCaptureFlash(uiState, false);
    }

    method OnPermissionDenied()
      modifies this`uiState
      ensures uiState == Error(CameraPermissionDenied)
    {
      uiState := Error(CameraPermissionDenied);
    }

    /** `onCleared`: close the engine, if any, and drop the kept frame. */
    method OnCleared()
      requires Valid()
      modifies this`ocrEngine, this`closed, this`hasLastBitmap
      ensures Valid() && ocrEngine == None && !hasLastBitmap
      ensures closed == old(closed) + (if old(ocrEngine).Some? then [old(ocrEngine).value] else [])
      ensures uiState == old(uiState) && isProcessing == old(isProcessing) && generations == old(generations)
    {
      if ocrEngine.Some? {
        closed := closed + [ocrEngine.value];
      }
      ocrEngine := None;
      hasLastBitmap := false;
    }
  }

  /**
   * The stale-engine guard: a frame launched with one engine publishes
   * nothing once the engine has been replaced, so results on screen always
   * come from the current engine.
   */
  method StaleFrameIsDropped(vm: CameraViewModel, pixelAt: (int, int) -> int,
                             copied: bool, a: AcceleratorType, created: AcceleratorType, results: seq<OcrResult>,
                             benchmark: Benchmark)
    returns (launched: Option<nat>)
    requires vm.Valid()
    modifies vm
    ensures vm.Valid() && !vm.isProcessing
    ensures launched.Some? ==> vm.uiState.Ready? && vm.uiState.ocrResults == [] && vm.uiState.benchmark == DefaultBenchmark
  {
    launched := vm.OnFrameReceived(pixelAt, copied);
    vm.InitializeEngine(a, DEFAULT, Some(created));
    if launched.Some? {
      vm.FinishFrame(launched.value, Some(results), benchmark);
    }
  }
}
