/**
 * The background OCR queue: a de-duplicating FIFO of image ids drained by a
 * single worker. Each unit looks the record up, skips it when it is missing
 * or already processed, and otherwise decodes the bitmap, creates the engine
 * on first use, runs OCR and writes the results back. The repository, the
 * bitmap decoder and the engine are an environment of functions; the mutex
 * sections run as atomic steps and the coroutine recursion is a loop.
 */
module OcrProcessing {
  import opened Wrappers
  import opened OcrTypes
  import opened GalleryIndex

  datatype ProcessingState = Idle | Processing(imageId: string)

  /**
   * What the worker sees: the record `getImage` returns for an id, whether a
   * uri decodes to a bitmap, whether creating the engine succeeds while
   * processing an id, and what `process` returns (`None` when it throws).
   */
  datatype Env = Env(
    lookup: string -> Option<GalleryImage>,
    decodes: string -> bool,
    createOk: string -> bool,
    process: string -> Option<seq<OcrResult>>)

  /** How one unit ended. Only `Written` calls `updateImageOcr`. */
  datatype UnitOutcome = Skipped | NoBitmap | NoEngine | ProcessFailed | Written(results: seq<OcrResult>)

  datatype Unit = Unit(id: string, outcome: UnitOutcome)

  /** Result of one unit and whether an engine exists afterwards. */
  datatype Step = Step(outcome: UnitOutcome, engine: bool)

  /** `processImage`: an undecodable bitmap or no engine ends the unit; the engine is created only when none exists. */
  function ImageStep(image: GalleryImage, engine: bool, env: Env): (s: Step)
    ensures engine ==> s.engine
    ensures s.outcome.Written? ==> env.decodes(image.uri) && s.engine
    ensures !env.decodes(image.uri) ==> s == Step(NoBitmap, engine)
  {
    if !env.decodes(image.uri) then Step(NoBitmap, engine)
    else
      var e := engine || env.createOk(image.id);
      if !e then Step(NoEngine, false)
      else
        match env.process(image.id)
        case None => Step(ProcessFailed, true)
        case Some(rs) => Step(Written(rs), true)
  }

  /** One unit of `processNext` after the poll. */
  function UnitStep(id: string, engine: bool, env: Env): (s: Step)
    ensures env.lookup(id).None? ==> s == Step(Skipped, engine)
    ensures env.lookup(id).Some? && env.lookup(id).value.ocrProcessed ==> s == Step(Skipped, engine)
    ensures engine ==> s.engine
  {
    match env.lookup(id)
    case None => Step(Skipped, engine)
    case Some(img) => if img.ocrProcessed then Step(Skipped, engine) else ImageStep(img, engine, env)
  }

  /** The units a drain of `queue` runs, in order. */
  function DrainUnits(queue: seq<string>, engine: bool, env: Env): (units: seq<Unit>)
    ensures |units| == |queue|
    decreases |queue|
  {
    if queue == [] then []
    else
      var s := UnitStep(queue[0], engine, env);
      [Unit(queue[0], s.outcome)] + DrainUnits(queue[1..], s.engine, env)
  }

  /** Whether an engine exists after draining `queue`. */
  function DrainEngine(queue: seq<string>, engine: bool, env: Env): bool
    decreases |queue|
  {
    if queue == [] then engine
    else DrainEngine(queue[1..], UnitStep(queue[0], engine, env).engine, env)
  }

  function Ids(units: seq<Unit>): (ids: seq<string>)
    ensures |ids| == |units| && forall k :: 0 <= k < |units| ==> ids[k] == units[k].id
  {
    if units == [] then [] else Ids(units[..|units| - 1]) + [units[|units| - 1].id]
  }

  /** The processing states a sequence of units publishes: `Processing(id)` then `Idle` for each. */
  function Published(units: seq<Unit>): (states: seq<ProcessingState>)
    ensures |states| == 2 * |units|
  {
    if units == [] then []
    else Published(units[..|units| - 1]) + [Processing(units[|units| - 1].id), Idle]
  }

  predicate NoDuplicates(q: seq<string>) {
    forall i, j :: 0 <= i < j < |q| ==> q[i] != q[j]
  }

  /** The mutex section of `enqueue`: append the id unless it is pending. */
  function Added(queue: seq<string>, id: string): (q: seq<string>)
    ensures id in queue ==> q == queue
    ensures id !in queue ==> q == queue + [id]
    ensures NoDuplicates(queue) ==> NoDuplicates(q)
  {
    if id in queue then queue else queue + [id]
  }

  /** Enqueueing each id in turn while the worker is busy. */
  function AddedAll(queue: seq<string>, ids: seq<string>): seq<string>
    decreases |ids|
  {
    if ids == [] then queue else Added(AddedAll(queue, ids[..|ids| - 1]), ids[|ids| - 1])
  }

  /** Enqueueing while busy keeps the queue duplicate-free and pends exactly the old and the new ids. */
  lemma {:induction false} AddedAllPends(queue: seq<string>, ids: seq<string>)
    ensures NoDuplicates(queue) ==> NoDuplicates(AddedAll(queue, ids))
    ensures forall x :: x in AddedAll(queue, ids) <==> x in queue || x in ids
    decreases |ids|
  {
    if ids != [] {
      var init := ids[..|ids| - 1];
      AddedAllPends(queue, init);
      assert ids == init + [ids[|ids| - 1]];
    }
  }

  lemma AddedAllSnoc(queue: seq<string>, ids: seq<string>, id: string)
    ensures AddedAll(queue, ids + [id]) == Added(AddedAll(queue, ids), id)
  {
    assert (ids + [id])[..|ids|] == ids;
  }

  /** `filter { !it.ocrProcessed }.map { it.id }`, in load order. */
  function PendingIds(images: seq<GalleryImage>): (ids: seq<string>)
    ensures |ids| <= |images|
  {
    if images == [] then []
    else PendingIds(images[..|images| - 1])
         + (if images[|images| - 1].ocrProcessed then [] else [images[|images| - 1].id])
  }

  class OcrProcessingManager {
    var queue: seq<string>
    var isProcessing: bool
    var engineCreated: bool
    var processingState: ProcessingState
    /** Every unit the worker ran, in order. */
    ghost var trace: seq<Unit>
    /** Every value written to `processingState`, in order. */
    ghost var published: seq<ProcessingState>

    /** Pending ids are distinct; outside a drain nothing is pending and the state is `Idle`. */
    ghost predicate Valid()
      reads this
    {
      NoDuplicates(queue) && (!isProcessing ==> queue == [] && processingState == Idle)
    }

    constructor ()
      ensures Valid() && !isProcessing && !engineCreated && queue == [] && trace == [] && published == []
    {
      queue := [];
      isProcessing := false;
      engineCreated := false;
      processingState := Idle;
      trace := [];
      published := [];
    }

    /** `processImage`: the engine field is set by a successful creation and then reused. */
    method ProcessImage(image: GalleryImage, env: Env) returns (outcome: UnitOutcome)
      modifies this`engineCreated
      ensures outcome == ImageStep(image, old(engineCreated), env).outcome
      ensures engineCreated == ImageStep(image, old(engineCreated), env).engine
    {
      if !env.decodes(image.uri) {
        return NoBitmap;
      }
      if !engineCreated {
        engineCreated := env.createOk(image.id);
      }
      if !engineCreated {
        return NoEngine;
      }
      var results := env.process(image.id);
      if results.None? {
        return ProcessFailed;
      }
      outcome := Written(results.value);
    }

    /**
     * One unit of `processNext`: poll the head id, publish `Processing(id)`,
     * process the record unless it is missing or already processed, then
     * clear the busy flag and publish `Idle`. Exceptions are caught.
     */
    method RunUnit(env: Env)
      requires queue != [] && !isProcessing
      modifies this
      ensures queue == old(queue)[1..] && !isProcessing && processingState == Idle
      ensures var s := UnitStep(old(queue)[0], old(engineCreated), env);
              && engineCreated == s.engine
              && trace == old(trace) + [Unit(old(queue)[0], s.outcome)]
      ensures published == old(published) + [Processing(old(queue)[0]), Idle]
    {
      isProcessing := true;
      var id := queue[0];
      queue := queue[1..];
      processingState := Processing(id);
      published := published + [processingState];
      var outcome := Skipped;
      var image := env.lookup(id);
      if image.Some? && !image.value.ocrProcessed {
        outcome := ProcessImage(image.value, env);
      }
      isProcessing := false;
      processingState := Idle;
      published := published + [Idle];
      trace := trace + [Unit(id, outcome)];
    }

    /**
     * `processNext`: nothing happens while a unit is in progress; otherwise
     * the queue is drained.
     */
    method ProcessNext(env: Env)
      requires NoDuplicates(queue) && (!isProcessing ==> processingState == Idle)
      modifies this
      ensures old(isProcessing) ==> queue == old(queue) && isProcessing && engineCreated == old(engineCreated)
                                    && processingState == old(processingState)
                                    && trace == old(trace) && published == old(published)
      ensures !old(isProcessing) ==>
                && queue == [] && !isProcessing && processingState == Idle
                && trace == old(trace) + DrainUnits(old(queue), old(engineCreated), env)
                && engineCreated == DrainEngine(old(queue), old(engineCreated), env)
                && published == old(published) + Published(DrainUnits(old(queue), old(engineCreated), env))
      ensures Valid()
    {
      if !isProcessing {
        Drain(env);
      }
    }

    /**
     * The drain: units run from the head of the queue until it is empty
     * (the source recurses after each unit).
     */
    method Drain(env: Env)
      requires !isProcessing && processingState == Idle
      modifies this
      ensures queue == [] && !isProcessing && processingState == Idle
      ensures trace == old(trace) + DrainUnits(old(queue), old(engineCreated), env)
      ensures engineCreated == DrainEngine(old(queue), old(engineCreated), env)
      ensures published == old(published) + Published(DrainUnits(old(queue), old(engineCreated), env))
    {
      ghost var done: seq<Unit> := [];
      ghost var q0, e0, t0, p0 := queue, engineCreated, trace, published;
      while queue != []
        invariant !isProcessing && processingState == Idle
        invariant done + DrainUnits(queue, engineCreated, env) == DrainUnits(q0, e0, env)
        invariant DrainEngine(queue, engineCreated, env) == DrainEngine(q0, e0, env)
        invariant trace == t0 + done && published == p0 + Published(done)
        decreases |queue|
      {
        ghost var q, before := queue, engineCreated;
        RunUnit(env);
        var u := trace[|trace| - 1];
        DrainStep(done, q, before, env, u, engineCreated);
        PublishedSnoc(done, u);
        done := done + [u];
      }
      assert done + [] == done;
    }

    /** `enqueue`: add the id unless it is already pending, then drain. */
    method Enqueue(id: string, env: Env)
      requires Valid()
      modifies this
      ensures Valid()
      ensures old(isProcessing) ==> queue == Added(old(queue), id) && isProcessing
                                    && engineCreated == old(engineCreated) && processingState == old(processingState)
                                    && trace == old(trace) && published == old(published)
      ensures !old(isProcessing) ==>
                && queue == [] && !isProcessing && processingState == Idle
                && trace == old(trace) + DrainUnits([id], old(engineCreated), env)
                && engineCreated == DrainEngine([id], old(engineCreated), env)
                && published == old(published) + Published(DrainUnits([id], old(engineCreated), env))
    {
      queue := Added(queue, id);
      ProcessNext(env);
    }

    /** `processUnprocessedImages`: enqueue every loaded record that has not been processed, in load order. */
    method ProcessUnprocessedImages(images: seq<GalleryImage>, env: Env)
      requires Valid()
      modifies this
      ensures Valid() && isProcessing == old(isProcessing)
      ensures !old(isProcessing) ==>
                && queue == [] && processingState == Idle
                && trace == old(trace) + DrainUnits(PendingIds(images), old(engineCreated), env)
                && engineCreated == DrainEngine(PendingIds(images), old(engineCreated), env)
                && published == old(published) + Published(DrainUnits(PendingIds(images), old(engineCreated), env))
      ensures old(isProcessing) ==>
                && queue == AddedAll(old(queue), PendingIds(images))
                && engineCreated == old(engineCreated) && processingState == old(processingState)
                && trace == old(trace) && published == old(published)
    {
      var i := 0;
      ghost var start, busy := trace, isProcessing;
      ghost var q0, e0, s0, p0 := queue, engineCreated, processingState, published;
      while i < |images|
        invariant 0 <= i <= |images|
        invariant Valid()
        invariant isProcessing == busy
        invariant !busy ==> && trace == start + DrainUnits(PendingIds(images[..i]), e0, env)
                            && engineCreated == DrainEngine(PendingIds(images[..i]), e0, env)
                            && published == p0 + Published(DrainUnits(PendingIds(images[..i]), e0, env))
        invariant busy ==> && trace == start && published == p0 && engineCreated == e0 && processingState == s0
                           && queue == AddedAll(q0, PendingIds(images[..i]))
      {
        ghost var traceBefore, engineBefore, queueBefore, publishedBefore := trace, engineCreated, queue, published;
        if !images[i].ocrProcessed {
          Enqueue(images[i].id, env);
          if busy {
            BusyEnqueueStep(q0, images, i, queueBefore, queue);
          } else {
            IdleEnqueueStep(images, i, e0, env, start, p0, traceBefore, engineBefore, publishedBefore,
                            trace, engineCreated, published);
          }
        } else {
          SkippedStep(images, i);
        }
        i := i + 1;
      }
      assert images[..|images|] == images;
    }
  }

  /** While busy, one more enqueue extends the queue as `AddedAll` on the longer prefix. */
  lemma BusyEnqueueStep(q0: seq<string>, images: seq<GalleryImage>, i: nat, before: seq<string>, after: seq<string>)
    requires i < |images| && !images[i].ocrProcessed
    requires before == AddedAll(q0, PendingIds(images[..i])) && after == Added(before, images[i].id)
    ensures after == AddedAll(q0, PendingIds(images[..i + 1]))
  {
    PendingIdsSnoc(images, i);
    AddedAllSnoc(q0, PendingIds(images[..i]), images[i].id);
  }

  lemma PendingIdsSnoc(images: seq<GalleryImage>, i: nat)
    requires i < |images|
    ensures PendingIds(images[..i + 1]) == PendingIds(images[..i]) + (if images[i].ocrProcessed then [] else [images[i].id])
  {
    assert images[..i + 1][..i] == images[..i];
  }

  lemma {:induction false} IdsAppend(a: seq<Unit>, b: seq<Unit>)
    ensures Ids(a + b) == Ids(a) + Ids(b)
  {
    var l, r := Ids(a + b), Ids(a) + Ids(b);
    assert |l| == |r|;
    forall k | 0 <= k < |l| ensures l[k] == r[k] {
      if k >= |a| { assert (a + b)[k] == b[k - |a|]; }
    }
  }

  /** One loop iteration of a drain: the unit run at the head moves from the pending drain to the finished ones. */
  lemma DrainStep(done: seq<Unit>, q: seq<string>, engine: bool, env: Env, u: Unit, after: bool)
    requires q != [] && u.id == q[0] && Step(u.outcome, after) == UnitStep(q[0], engine, env)
    ensures (done + [u]) + DrainUnits(q[1..], after, env) == done + DrainUnits(q, engine, env)
    ensures DrainEngine(q[1..], after, env) == DrainEngine(q, engine, env)
  {
    assert DrainUnits(q, engine, env) == [u] + DrainUnits(q[1..], after, env);
  }

  lemma PublishedSnoc(done: seq<Unit>, u: Unit)
    ensures Published(done + [u]) == Published(done) + [Processing(u.id), Idle]
  {
    assert (done + [u])[..|done|] == done;
  }

  lemma IdsSuffix(start: seq<Unit>, mid: seq<Unit>, units: seq<Unit>)
    requires |start| <= |mid|
    ensures Ids((mid + units)[|start|..]) == Ids(mid[|start|..]) + Ids(units)
  {
    assert (mid + units)[|start|..] == mid[|start|..] + units;
    IdsAppend(mid[|start|..], units);
  }

  /** A processed record adds nothing to the pending ids. */
  lemma SkippedStep(images: seq<GalleryImage>, i: nat)
    requires i < |images| && images[i].ocrProcessed
    ensures PendingIds(images[..i + 1]) == PendingIds(images[..i])
  {
    PendingIdsSnoc(images, i);
    assert PendingIds(images[..i]) + [] == PendingIds(images[..i]);
  }

  /** While idle, one more enqueue drains exactly the next pending id. */
  lemma IdleEnqueueStep(images: seq<GalleryImage>, i: nat, e0: bool, env: Env, start: seq<Unit>, p0: seq<ProcessingState>,
                        traceBefore: seq<Unit>, engineBefore: bool, publishedBefore: seq<ProcessingState>,
                        traceAfter: seq<Unit>, engineAfter: bool, publishedAfter: seq<ProcessingState>)
    requires i < |images| && !images[i].ocrProcessed
    requires var done := DrainUnits(PendingIds(images[..i]), e0, env);
             && traceBefore == start + done && publishedBefore == p0 + Published(done)
             && engineBefore == DrainEngine(PendingIds(images[..i]), e0, env)
    requires var unit := DrainUnits([images[i].id], engineBefore, env);
             && traceAfter == traceBefore + unit && publishedAfter == publishedBefore + Published(unit)
             && engineAfter == DrainEngine([images[i].id], engineBefore, env)
    ensures var done := DrainUnits(PendingIds(images[..i + 1]), e0, env);
            && traceAfter == start + done && publishedAfter == p0 + Published(done)
            && engineAfter == DrainEngine(PendingIds(images[..i + 1]), e0, env)
  {
    var pending, id := PendingIds(images[..i]), images[i].id;
    PendingIdsSnoc(images, i);
    DrainAppend(pending, [id], e0, env);
    var done, unit := DrainUnits(pending, e0, env), DrainUnits([id], engineBefore, env);
    PublishedAppend(done, unit);
    assert start + done + unit == start + (done + unit);
    assert p0 + Published(done) + Published(unit) == p0 + (Published(done) + Published(unit));
  }

  /** Draining `a` and then `b` is draining `a + b`. */
  lemma {:induction false} DrainAppend(a: seq<string>, b: seq<string>, engine: bool, env: Env)
    ensures DrainUnits(a + b, engine, env) == DrainUnits(a, engine, env) + DrainUnits(b, DrainEngine(a, engine, env), env)
    ensures DrainEngine(a + b, engine, env) == DrainEngine(b, DrainEngine(a, engine, env), env)
    decreases |a|
  {
    if a == [] {
      assert a + b == b;
    } else {
      assert (a + b)[0] == a[0] && (a + b)[1..] == a[1..] + b;
      DrainAppend(a[1..], b, UnitStep(a[0], engine, env).engine, env);
    }
  }

  /** The published states of two unit sequences, one after the other. */
  lemma {:induction false} PublishedAppend(a: seq<Unit>, b: seq<Unit>)
    ensures Published(a + b) == Published(a) + Published(b)
    decreases |b|
  {
    if b == [] {
      assert a + b == a;
    } else {
      var init := b[..|b| - 1];
      PublishedAppend(a, init);
      assert (a + b)[..|a + b| - 1] == a + init;
    }
  }

  /** Draining one enqueued id adds exactly that id to the ids the trace records since `start`. */
  lemma DrainOfOne(start: seq<Unit>, mid: seq<Unit>, id: string, engine: bool, env: Env)
    requires |start| <= |mid|
    ensures Ids((mid + DrainUnits([id], engine, env))[|start|..]) == Ids(mid[|start|..]) + [id]
  {
    DrainOrder([id], engine, env);
    IdsSuffix(start, mid, DrainUnits([id], engine, env));
  }

  /** Processing order is enqueue order: a drain runs one unit per pending id, in queue order. */
  lemma {:induction false} DrainOrder(queue: seq<string>, engine: bool, env: Env)
    ensures Ids(DrainUnits(queue, engine, env)) == queue
  {
    var ids := Ids(DrainUnits(queue, engine, env));
    forall k | 0 <= k < |queue| ensures ids[k] == queue[k] {
      DrainUnitId(queue, engine, env, k);
    }
  }

  /** The `k`-th unit of a drain runs the `k`-th queued id. */
  lemma {:induction false} DrainUnitId(queue: seq<string>, engine: bool, env: Env, k: nat)
    requires k < |queue|
    ensures DrainUnits(queue, engine, env)[k].id == queue[k]
    decreases k
  {
    var s := UnitStep(queue[0], engine, env);
    assert DrainUnits(queue, engine, env) == [Unit(queue[0], s.outcome)] + DrainUnits(queue[1..], s.engine, env);
    if k > 0 {
      DrainUnitId(queue[1..], s.engine, env, k - 1);
    }
  }

  /** Once created the engine is reused: it never goes away during a drain. */
  lemma {:induction false} EngineKept(queue: seq<string>, env: Env)
    ensures DrainEngine(queue, true, env)
    decreases |queue|
  {
    if queue != [] {
      EngineKept(queue[1..], env);
    }
  }

  /** Each unit publishes `Processing` for exactly its own id, then `Idle`. */
  lemma {:induction false} PublishedPairs(units: seq<Unit>, k: nat)
    requires k < |units|
    ensures Published(units)[2 * k] == Processing(units[k].id)
    ensures Published(units)[2 * k + 1] == Idle
    decreases |units|
  {
    if k < |units| - 1 {
      PublishedPairs(units[..|units| - 1], k);
      assert units[..|units| - 1][k] == units[k];
    }
  }

  /** Results are written back only for a present, unprocessed record whose bitmap decodes, with an engine. */
  lemma {:induction false} WrittenOnlyWhenReady(queue: seq<string>, engine: bool, env: Env, k: nat)
    requires k < |queue|
    requires DrainUnits(queue, engine, env)[k].outcome.Written?
    ensures env.lookup(queue[k]).Some? && !env.lookup(queue[k]).value.ocrProcessed
    ensures env.decodes(env.lookup(queue[k]).value.uri)
    decreases |queue|
  {
    var s := UnitStep(queue[0], engine, env);
    if k > 0 {
      WrittenOnlyWhenReady(queue[1..], s.engine, env, k - 1);
    }
  }
}
