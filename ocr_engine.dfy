/**
 * The Kotlin wrapper around the native engine: a handle that every call
 * checks, an idempotent close, the factory that rejects a zero handle, and
 * the process-wide flag that makes the native cache setup happen at most
 * once until shutdown. The native calls themselves are parameters.
 */
module EngineWrapper {
  import opened Wrappers
  import opened Accelerators
  import opened OcrTypes
  import NativeEngine

  /** Why a call failed: `check` on a closed handle, a zero handle from the native factory, a short benchmark array, or an I/O error while copying the model assets. */
  datatype Failure = EngineClosed | NativeCreateFailed | IndexOutOfBounds | AssetCopyFailed

  /** Kotlin's `Result<T>` and the exceptions `check` throws, as a value. */
  datatype Outcome<T> = Ok(value: T) | Failed(failure: Failure)

  /** What reached the native layer from the runtime-wide companion object. */
  datatype RuntimeCall = SetCacheDir | NativeShutdown

  /** No two cache setups without a shutdown in between. */
  predicate SetupOncePerShutdown(log: seq<RuntimeCall>) {
    forall i :: 0 < i < |log| && log[i] == SetCacheDir ==> log[i - 1] == NativeShutdown
  }

  /** The flag the log implies: the last runtime call was a setup. */
  function CacheSetUp(log: seq<RuntimeCall>): (b: bool)
    ensures b <==> exists i :: 0 <= i < |log| && log[i] == SetCacheDir && forall k :: i < k < |log| ==> log[k] != NativeShutdown
  {
    if log == [] then false
    else if log[|log| - 1] == SetCacheDir then true
    else
      assert forall i :: 0 <= i < |log| && log[i] == SetCacheDir ==> log[|log| - 1] == NativeShutdown && i < |log| - 1;
      false
  }

  /** The companion object's `cacheInitialized` flag and the native calls it guards. */
  class Runtime {
    var cacheInitialized: bool
    ghost var log: seq<RuntimeCall>

    ghost predicate Valid()
      reads this
    {
      SetupOncePerShutdown(log) && cacheInitialized == CacheSetUp(log)
    }

    constructor ()
      ensures Valid() && !cacheInitialized && log == []
    {
      cacheInitialized := false;
      log := [];
    }

    /** `initializeCache`: the native setup runs only when the flag is clear. */
    method InitializeCache()
      requires Valid()
      modifies this
      ensures Valid() && cacheInitialized
      ensures log == old(log) + (if old(cacheInitialized) then [] else [SetCacheDir])
    {
      if cacheInitialized {
        return;
      }
      log := log + [SetCacheDir];
      cacheInitialized := true;
    }

    /** `shutdown`: the native shutdown always runs and the flag is cleared. */
    method Shutdown()
      requires Valid()
      modifies this
      ensures Valid() && !cacheInitialized
      ensures log == old(log) + [NativeShutdown]
    {
      log := log + [NativeShutdown];
      cacheInitialized := false;
    }
  }

  /**
   * One engine instance. `nativeActive` is the accelerator the native engine
   * recorded when it was created; `destroyed` lists the handles passed to the
   * native destroy call.
   */
  class OcrEngine {
    var nativeHandle: int
    const nativeActive: AcceleratorType
    ghost var destroyed: seq<int>

    /** Nothing destroyed while open; once closed, at most the one handle. */
    ghost predicate Valid()
      reads this
    {
      (nativeHandle != 0 ==> destroyed == []) && |destroyed| <= 1
    }

    constructor (handle: int, active: AcceleratorType)
      ensures Valid() && nativeHandle == handle && nativeActive == active && destroyed == []
    {
      nativeHandle := handle;
      nativeActive := active;
      destroyed := [];
    }

    /**
     * `create`: set up the cache, copy the assets, then wrap the handle the
     * native factory returned, failing on zero.
     */
    static method Create(runtime: Runtime, assetsCopied: bool, handle: int, active: AcceleratorType)
      returns (r: Outcome<OcrEngine>)
      requires runtime.Valid()
      modifies runtime
      ensures runtime.Valid() && runtime.cacheInitialized
      ensures runtime.log == old(runtime.log) + (if old(runtime.cacheInitialized) then [] else [SetCacheDir])
      ensures !assetsCopied ==> r == Failed(AssetCopyFailed)
      ensures assetsCopied && handle == 0 ==> r == Failed(NativeCreateFailed)
      ensures r.Ok? <==> assetsCopied && handle != 0
      ensures r.Ok? ==> fresh(r.value) && r.value.Valid() && r.value.nativeHandle == handle
                        && r.value.nativeActive == active && r.value.destroyed == []
    {
      runtime.InitializeCache();
      if !assetsCopied {
        return Failed(AssetCopyFailed);
      }
      if handle == 0 {
        return Failed(NativeCreateFailed);
      }
      var e := new OcrEngine(handle, active);
      r := Ok(e);
    }

    /** `process`: fails once closed; a null native array is an empty list. */
    method Process(nativeResult: Option<seq<OcrResult>>) returns (r: Outcome<seq<OcrResult>>)
      ensures r.Failed? <==> nativeHandle == 0
      ensures r.Failed? ==> r.failure == EngineClosed
      ensures r.Ok? && nativeResult.None? ==> r.value == []
      ensures r.Ok? && nativeResult.Some? ==> r.value == nativeResult.value
    {
      if nativeHandle == 0 {
        return Failed(EngineClosed);
      }
      r := Ok(nativeResult.GetOr([]));
    }

    /**
     * `getBenchmark`: fails once closed; a null array is the all-zero
     * benchmark; otherwise elements 0 to 3 are the detection, recognition and
     * total times and the fps, and a shorter array throws.
     */
    method GetBenchmark(data: Option<seq<real>>) returns (r: Outcome<Benchmark>)
      ensures nativeHandle == 0 ==> r == Failed(EngineClosed)
      ensures nativeHandle != 0 && data.None? ==> r == Ok(DefaultBenchmark)
      ensures nativeHandle != 0 && data.Some? && |data.value| < 4 ==> r == Failed(IndexOutOfBounds)
      ensures r.Ok? && data.Some? ==>
                |data.value| >= 4
                && r.value.detectionTimeMs == data.value[0] && r.value.recognitionTimeMs == data.value[1]
                && r.value.totalTimeMs == data.value[2] && r.value.fps == data.value[3]
    {
      if nativeHandle == 0 {
        return Failed(EngineClosed);
      }
      if data.None? {
        return Ok(DefaultBenchmark);
      }
      var d := data.value;
      if |d| < 4 {
        return Failed(IndexOutOfBounds);
      }
      r := Ok(Benchmark(d[0], d[1], d[2], d[3]));
    }

    /**
     * `getActiveAccelerator`: fails once closed; otherwise the native code
     * read back through `fromValue`, which is the recorded accelerator
     * itself unless that is NPU.
     */
    method GetActiveAccelerator() returns (r: Outcome<AcceleratorType>)
      ensures r.Failed? <==> nativeHandle == 0
      ensures r.Failed? ==> r.failure == EngineClosed
      ensures r.Ok? && nativeActive != NPU ==> r.value == nativeActive
      ensures r.Ok? && nativeActive == NPU ==> r.value == GPU
    {
      if nativeHandle == 0 {
        return Failed(EngineClosed);
      }
      FromValueRoundTrip(GPU);
      FromValueRoundTrip(CPU);
      NpuDoesNotRoundTrip();
      r := Ok(FromValue(Value(nativeActive)));
    }

    /** `close`: destroys a live handle once and zeroes it; a second close does nothing. */
    method Close()
      requires Valid()
      modifies this
      ensures Valid() && nativeHandle == 0
      ensures destroyed == old(destroyed) + (if old(nativeHandle) != 0 then [old(nativeHandle)] else [])
    {
      if nativeHandle != 0 {
        destroyed := destroyed + [nativeHandle];
        nativeHandle := 0;
      }
    }
  }

  /**
   * An engine the native factory made reports back the accelerator the native
   * fallback chain chose: that choice is never NPU, so `fromValue` recovers it.
   */
  lemma CreatedEngineReportsActive(requested: AcceleratorType,
                                   detectorOk: AcceleratorType -> bool,
                                   recognizerOk: AcceleratorType -> bool)
    ensures var a := NativeEngine.FirstWorking(NativeEngine.FallbackChain, NativeEngine.FallbackStartIndex(requested), detectorOk, recognizerOk);
            a.Some? ==> FromValue(Value(a.value)) == a.value
  {
    NativeEngine.ActiveNeverNpu(requested, detectorOk, recognizerOk);
    FromValueRoundTrip(GPU);
    FromValueRoundTrip(CPU);
  }
}
