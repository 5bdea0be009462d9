/**
 * The image viewer's view model: paging over the gallery, a per-image cache
 * of results and image size, a lazily created engine, the stale-load guard,
 * and copying recognised text. The repository, the bitmap decoder, the
 * engine and the clock are parameters.
 */
module ImageViewer {
  import opened Wrappers
  import opened Text
  import opened OcrTypes
  import opened GalleryIndex
  import opened Gallery
  import opened ViewerState

  /** A cache entry: the results and the image's width and height. */
  datatype CachedOcr = CachedOcr(results: seq<OcrResult>, width: int, height: int)

  /** `allImages.indexOfFirst { it.id == imageId }.coerceAtLeast(0)`. */
  function StartIndex(images: seq<GalleryImage>, id: string): (i: nat)
    ensures IndexOfId(images, id) >= 0 ==> i == IndexOfId(images, id) && images[i].id == id
    ensures IndexOfId(images, id) == -1 ==> i == 0
  {
    var k := IndexOfId(images, id);
    if k < 0 then 0 else k
  }

  /**
   * `onPageChanged` on the UI state: an index off the pager changes nothing;
   * otherwise the page changes and shows the cached entry, or nothing with
   * the processing flag up.
   */
  function PageChanged(s: ImageViewerUiState, index: int, cache: map<string, CachedOcr>): (t: ImageViewerUiState)
    ensures !(0 <= index < |s.allImages|) ==> t == s
    ensures 0 <= index < |s.allImages| && s.allImages[index].id in cache ==>
              var e := cache[s.allImages[index].id];
              t == s.(currentIndex := index, ocrResults := e.results, imageWidth := e.width, imageHeight := e.height,
                      isProcessing := false)
    ensures 0 <= index < |s.allImages| && s.allImages[index].id !in cache ==>
              t == s.(currentIndex := index, ocrResults := [], imageWidth := 0, imageHeight := 0, isProcessing := true)
  {
    if index < 0 || index >= |s.allImages| then s
    else
      var id := s.allImages[index].id;
      if id in cache then
        var e := cache[id];
        s.(currentIndex := index, ocrResults := e.results, imageWidth := e.width, imageHeight := e.height,
           isProcessing := false)
      else
        s.(currentIndex := index, ocrResults := [], imageWidth := 0, imageHeight := 0, isProcessing := true)
  }

  /** After a page change to an existing page, that page is the current image, and it is "processing" exactly on a cache miss. */
  lemma PageChangedShowsPage(s: ImageViewerUiState, index: int, cache: map<string, CachedOcr>)
    requires 0 <= index < |s.allImages|
    ensures CurrentImage(PageChanged(s, index, cache)) == Some(s.allImages[index])
    ensures PageChanged(s, index, cache).isProcessing <==> s.allImages[index].id !in cache
    ensures PageChanged(s, index, cache).allImages == s.allImages
  {
  }

  /** Turning to the same page twice is the same as turning once. */
  lemma PageChangedIdempotent(s: ImageViewerUiState, index: int, cache: map<string, CachedOcr>)
    ensures PageChanged(PageChanged(s, index, cache), index, cache) == PageChanged(s, index, cache)
  {
  }

  /** A finished load for `id` may touch the screen only while `id` is the current image. */
  predicate ShowsImage(s: ImageViewerUiState, id: string)
    ensures ShowsImage(s, id) ==> 0 <= s.currentIndex < |s.allImages| && s.allImages[s.currentIndex].id == id
  {
    CurrentImage(s).Some? && CurrentImage(s).value.id == id
  }

  function Texts(results: seq<OcrResult>): (texts: seq<string>)
    ensures |texts| == |results| && forall k :: 0 <= k < |results| ==> texts[k] == results[k].text
  {
    seq(|results|, k requires 0 <= k < |results| => results[k].text)
  }

  /** `ocrResults.joinToString("\n") { it.text }`. */
  function AllText(results: seq<OcrResult>): (text: string)
    ensures results == [] ==> text == ""
    ensures results != [] ==> results[0].text <= text
  {
    Join(Texts(results), '\n')
  }

  /** The copied text splits back into the result texts when none spans lines. */
  lemma AllTextLines(results: seq<OcrResult>)
    requires results != []
    requires forall k :: 0 <= k < |results| ==> '\n' !in results[k].text
    ensures Split(AllText(results), '\n') == Texts(results)
  {
    SplitJoin(Texts(results), '\n');
  }

  /** One result with a non-blank text is enough for "copy all" to copy something. */
  lemma AllTextNotBlank(results: seq<OcrResult>, k: nat)
    requires k < |results| && !IsBlank(results[k].text)
    ensures !IsBlank(AllText(results))
  {
    var text := results[k].text;
    var i :| 0 <= i < |text| && !IsWhitespace(text[i]);
    JoinContainsPart(Texts(results), '\n', k, text[i]);
    var j :| 0 <= j < |AllText(results)| && AllText(results)[j] == text[i];
  }

  /** With no results there is nothing to copy. */
  lemma AllTextOfNothing()
    ensures AllText([]) == "" && IsBlank(AllText([]))
  {
  }

  class ImageViewerViewModel {
    var uiState: ImageViewerUiState
    var ocrCache: map<string, CachedOcr>
    /** The lazily created engine's generation, if one is open. */
    var ocrEngine: Option<nat>
    var engines: nat
    ghost var closed: seq<nat>
    /** `repository.updateImageOcr` calls, in order. */
    ghost var writeBacks: seq<(string, seq<OcrResult>)>
    /** The clipboard's primary clip. */
    ghost var clipboard: Option<string>

    ghost predicate Valid()
      reads this
    {
      ocrEngine.Some? ==> ocrEngine.value + 1 == engines
    }

    constructor ()
      ensures Valid() && uiState == DefaultViewerState && ocrCache == map[] && ocrEngine == None
      ensures closed == [] && writeBacks == [] && clipboard == None
    {
      uiState := DefaultViewerState;
      ocrCache := map[];
      ocrEngine := None;
      engines := 0;
      closed := [];
      writeBacks := [];
      clipboard := None;
    }

    /** `initialize`: show `allImages` at the image's position (or at 0) and return the image to load, if any. */
    method Initialize(allImages: seq<GalleryImage>, id: string) returns (load: Option<GalleryImage>)
      modifies this`uiState
      ensures uiState == old(uiState).(allImages := allImages, currentIndex := StartIndex(allImages, id))
      ensures load == CurrentImage(uiState)
      ensures load.Some? <==> allImages != []
      ensures IndexOfId(allImages, id) >= 0 ==> load.Some? && load.value.id == id
    {
      var index := StartIndex(allImages, id);
      uiState := uiState.(allImages := allImages, currentIndex := index);
      load := if index < |allImages| then Some(allImages[index]) else None;
    }

    /** `onPageChanged`: returns the image whose load starts, on a cache miss. */
    method OnPageChanged(index: int) returns (load: Option<GalleryImage>)
      modifies this`uiState
      ensures uiState == PageChanged(old(uiState), index, ocrCache)
      ensures load.Some? <==> 0 <= index < |old(uiState).allImages| && old(uiState).allImages[index].id !in ocrCache
      ensures load.Some? ==> load.value == old(uiState).allImages[index]
    {
      var allImages := uiState.allImages;
      if index < 0 || index >= |allImages| {
        return None;
      }
      uiState := PageChanged(uiState, index, ocrCache);
      load := if allImages[index].id in ocrCache then None else Some(allImages[index]);
    }

    /**
     * `loadOcrForImage`. Results the repository holds are reused when there
     * are any, with `bounds` (the decoded size, or 0×0). Otherwise the bitmap
     * is decoded (`decoded` is its size, `None` when the stream fails), the
     * engine is created if there is none (`createOk`), `processed` is what it
     * recognised, and the results are written back. A failure before that
     * sets `errorMessage`. The screen changes only if the image is still
     * the current one; the cache is filled either way.
     */
    method LoadOcrForImage(image: GalleryImage, deserialize: string -> seq<OcrResult>, bounds: (int, int),
                           decoded: Option<(int, int)>, createOk: bool, processed: seq<OcrResult>,
                           errorMessage: Option<string>)
      requires Valid()
      modifies this
      ensures Valid()
      ensures var stored := GetCachedOcrResults(image, deserialize);
              stored.Some? && stored.value != [] ==>
                && ocrCache == old(ocrCache)[image.id := CachedOcr(stored.value, bounds.0, bounds.1)]
                && ocrEngine == old(ocrEngine) && writeBacks == old(writeBacks)
                && uiState == (if ShowsImage(old(uiState), image.id)
                               then old(uiState).(isProcessing := false, ocrResults := stored.value,
                                                  imageWidth := bounds.0, imageHeight := bounds.1)
                               else old(uiState))
      ensures var stored := GetCachedOcrResults(image, deserialize);
              var fails := decoded.None? || (old(ocrEngine).None? && !createOk);
              !(stored.Some? && stored.value != []) && fails ==>
                && ocrCache == old(ocrCache) && writeBacks == old(writeBacks) && ocrEngine == old(ocrEngine)
                && uiState == (if ShowsImage(old(uiState), image.id)
                               then old(uiState).(isProcessing := false, error := errorMessage)
                               else old(uiState))
      ensures var stored := GetCachedOcrResults(image, deserialize);
              var fails := decoded.None? || (old(ocrEngine).None? && !createOk);
              !(stored.Some? && stored.value != []) && !fails ==>
                && ocrCache == old(ocrCache)[image.id := CachedOcr(processed, decoded.value.0, decoded.value.1)]
                && writeBacks == old(writeBacks) + [(image.id, processed)]
                && (old(ocrEngine).Some? ==> ocrEngine == old(ocrEngine))
                && (old(ocrEngine).None? ==> ocrEngine == Some(old(engines)))
                && uiState == (if ShowsImage(old(uiState), image.id)
                               then old(uiState).(isProcessing := false, ocrResults := processed,
                                                  imageWidth := decoded.value.0, imageHeight := decoded.value.1)
                               else old(uiState))
      ensures old(ocrCache).Keys <= ocrCache.Keys
      ensures closed == old(closed) && clipboard == old(clipboard)
    {
      var cachedResults := GetCachedOcrResults(image, deserialize);
      if cachedResults.Some? && |cachedResults.value| > 0 {
        ocrCache := ocrCache[image.id := CachedOcr(cachedResults.value, bounds.0, bounds.1)];
        if ShowsImage(uiState, image.id) {
          uiState := uiState.(isProcessing := false, ocrResults := cachedResults.value,
                              imageWidth := bounds.0, imageHeight := bounds.1);
        }
        return;
      }
      var failed := false;
      if decoded.None? {
        failed := true;
      } else if ocrEngine.None? {
        if createOk {
          ocrEngine := Some(engines);
          engines := engines + 1;
        } else {
          failed := true;
        }
      }
      if failed {
        if ShowsImage(uiState, image.id) {
          uiState := uiState.(isProcessing := false, error := errorMessage);
        }
        return;
      }
      var (width, height) := decoded.value;
      writeBacks := writeBacks + [(image.id, processed)];
      ocrCache := ocrCache[image.id := CachedOcr(processed, width, height)];
      if ShowsImage(uiState, image.id) {
        uiState := uiState.(isProcessing := false, ocrResults := processed, imageWidth := width, imageHeight := height);
      }
    }

    /** `copyAllText`: copies the joined texts and raises the event, unless they are blank. */
    method CopyAllText(now: int)
      modifies this`uiState, this`clipboard
      ensures var text := AllText(old(uiState).ocrResults);
              && (IsBlank(text) ==> uiState == old(uiState) && clipboard == old(clipboard))
              && (!IsBlank(text) ==> uiState == old(uiState).(textCopiedEvent := Some(TextCopiedEvent(text, now)))
                                     && clipboard == Some(text))
    {
      var allText := AllText(uiState.ocrResults);
      if !IsBlank(allText) {
        clipboard := Some(allText);
        uiState := uiState.(textCopiedEvent := Some(TextCopiedEvent(allText, now)));
      }
    }

    /** `copyText`: blank text is ignored. */
    method CopyText(text: string, now: int)
      modifies this`uiState, this`clipboard
      ensures IsBlank(text) ==> uiState == old(uiState) && clipboard == old(clipboard)
      ensures !IsBlank(text) ==> uiState == old(uiState).(textCopiedEvent := Some(TextCopiedEvent(text, now)))
                                 && clipboard == Some(text)
    {
      if !IsBlank(text) {
        clipboard := Some(text);
        uiState := uiState.(textCopiedEvent := Some(TextCopiedEvent(text, now)));
      }
    }

    method ClearCopyEvent()
      modifies this`uiState
      ensures uiState == old(uiState).(textCopiedEvent := None)
    {
      uiState := uiState.(textCopiedEvent := None);
    }

    /** `close`: releases the engine, if any; a second close does nothing more. */
    method Close()
      requires Valid()
      modifies this`ocrEngine, this`closed
      ensures Valid() && ocrEngine == None
      ensures closed == old(closed) + (if old(ocrEngine).Some? then [old(ocrEngine).value] else [])
    {
      if ocrEngine.Some? {
        closed := closed + [ocrEngine.value];
      }
      ocrEngine := None;
    }
  }

  /** Closing twice closes the engine once. */
  method CloseTwice(vm: ImageViewerViewModel)
    requires vm.Valid()
    modifies vm
    ensures vm.ocrEngine == None
    ensures vm.closed == old(vm.closed) + (if old(vm.ocrEngine).Some? then [old(vm.ocrEngine).value] else [])
  {
    vm.Close();
    vm.Close();
  }
}
