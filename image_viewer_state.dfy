/**
 * The image viewer's UI state: the pager over all gallery images, the
 * results shown for the current page, and a one-shot "text copied" event.
 */
module ViewerState {
  import opened Wrappers
  import opened OcrTypes
  import opened GalleryIndex

  /** The event's timestamp is the clock reading at the copy, a parameter here. */
  datatype TextCopiedEvent = TextCopiedEvent(text: string, timestamp: int)

  datatype ImageViewerUiState = ImageViewerUiState(
    isProcessing: bool,
    ocrResults: seq<OcrResult>,
    error: Option<string>,
    imageWidth: int,
    imageHeight: int,
    textCopiedEvent: Option<TextCopiedEvent>,
    allImages: seq<GalleryImage>,
    currentIndex: int)

  /** `ImageViewerUiState()`. */
  const DefaultViewerState: ImageViewerUiState := ImageViewerUiState(false, [], None, 0, 0, None, [], 0)

  /** `currentImage`: the image at the index, `None` when the index is out of range. */
  function CurrentImage(s: ImageViewerUiState): (r: Option<GalleryImage>)
    ensures r.Some? <==> 0 <= s.currentIndex < |s.allImages|
    ensures r.Some? ==> r.value == s.allImages[s.currentIndex]
  {
    if 0 <= s.currentIndex < |s.allImages| then Some(s.allImages[s.currentIndex]) else None
  }

  /** On a page that exists, `hasPrevious` holds exactly when the page before it exists. */
  predicate HasPrevious(s: ImageViewerUiState)
    ensures CurrentImage(s).Some? ==> (HasPrevious(s) <==> CurrentImage(s.(currentIndex := s.currentIndex - 1)).Some?)
  {
    s.currentIndex > 0
  }

  /** On a page that exists, `hasNext` holds exactly when the page after it exists. */
  predicate HasNext(s: ImageViewerUiState)
    ensures CurrentImage(s).Some? ==> (HasNext(s) <==> CurrentImage(s.(currentIndex := s.currentIndex + 1)).Some?)
  {
    s.currentIndex < |s.allImages| - 1
  }

  /** The default state shows nothing and offers no paging. */
  lemma DefaultState()
    ensures var s := DefaultViewerState;
            && !s.isProcessing && s.ocrResults == [] && s.error == None
            && s.imageWidth == 0 && s.imageHeight == 0 && s.textCopiedEvent == None
            && s.allImages == [] && s.currentIndex == 0
            && CurrentImage(s) == None && !HasPrevious(s) && !HasNext(s)
  {
  }

  /** An empty pager has no next page at any index the view model sets (they are never negative). */
  lemma EmptyHasNoNext(s: ImageViewerUiState)
    requires s.allImages == [] && s.currentIndex >= 0
    ensures !HasNext(s) && CurrentImage(s) == None
    ensures HasPrevious(s) <==> s.currentIndex > 0
  {
  }
}
