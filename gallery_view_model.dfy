/**
 * The gallery screen's view model: the image list it shows, the multi-select
 * rules, and what a repository delete, a bulk delete and a new-image event do
 * to that list. The repository's answers are parameters; the ids handed to
 * it are kept in a ghost log.
 */
module GalleryScreen {
  import opened Wrappers
  import opened GalleryIndex

  datatype GalleryUiState = GalleryUiState(
    images: seq<GalleryImage>,
    isLoading: bool,
    isSelectionMode: bool,
    selectedIds: set<string>)

  const InitialState: GalleryUiState := GalleryUiState([], false, false, {})

  /** The ids of a list of records, as a set (`images.map { it.id }.toSet()`). */
  function IdSet(images: seq<GalleryImage>): (ids: set<string>)
    ensures forall id :: id in ids <==> exists k :: 0 <= k < |images| && images[k].id == id
  {
    set k | 0 <= k < |images| :: images[k].id
  }

  /** `images.filter { it.id !in ids }`. */
  function RemoveIds(images: seq<GalleryImage>, ids: set<string>): (r: seq<GalleryImage>)
    ensures |r| <= |images|
    ensures forall x :: x in r <==> x in images && x.id !in ids
  {
    if images == [] then []
    else (if images[0].id in ids then [] else [images[0]]) + RemoveIds(images[1..], ids)
  }

  /** Filtering out one id is the repository's `removeAll` for that id: both screens drop the same records. */
  lemma {:induction false} RemoveSingleId(images: seq<GalleryImage>, id: string)
    ensures RemoveIds(images, {id}) == RemoveId(images, id)
    decreases |images|
  {
    if images != [] {
      RemoveSingleId(images[1..], id);
    }
  }

  /** Filtering out ids that no record carries changes nothing. */
  lemma {:induction false} RemoveIdsOfNone(images: seq<GalleryImage>, ids: set<string>)
    requires forall k :: 0 <= k < |images| ==> images[k].id !in ids
    ensures RemoveIds(images, ids) == images
    decreases |images|
  {
    if images != [] {
      RemoveIdsOfNone(images[1..], ids);
      assert images == [images[0]] + images[1..];
    }
  }

  // ---------------------------------------------------------------------------
  // Selection

  function EnterSelectionMode(s: GalleryUiState, id: string): (t: GalleryUiState)
    ensures t.isSelectionMode && t.selectedIds == {id}
    ensures t.images == s.images && t.isLoading == s.isLoading
  {
    s.(isSelectionMode := true, selectedIds := {id})
  }

  /** `exitSelectionMode` and `deselectAll`, which do the same. */
  function ExitSelectionMode(s: GalleryUiState): (t: GalleryUiState)
    ensures !t.isSelectionMode && t.selectedIds == {}
    ensures t.images == s.images && t.isLoading == s.isLoading
  {
    s.(isSelectionMode := false, selectedIds := {})
  }

  /** Flip one id; an emptied selection also leaves selection mode. */
  function ToggleSelection(s: GalleryUiState, id: string): (t: GalleryUiState)
    ensures id in t.selectedIds <==> id !in s.selectedIds
    ensures forall other :: other != id ==> (other in t.selectedIds <==> other in s.selectedIds)
    ensures t.selectedIds == {} ==> !t.isSelectionMode
    ensures t.selectedIds != {} ==> t.isSelectionMode == s.isSelectionMode
    ensures t.images == s.images && t.isLoading == s.isLoading
  {
    var selected := if id in s.selectedIds then s.selectedIds - {id} else s.selectedIds + {id};
    if selected == {} then s.(isSelectionMode := false, selectedIds := {})
    else s.(selectedIds := selected)
  }

  /** Selects exactly the shown images; the mode flag is left as it was. */
  function SelectAll(s: GalleryUiState): (t: GalleryUiState)
    ensures forall id :: id in t.selectedIds <==> IndexOfId(s.images, id) >= 0
    ensures t.images == s.images && t.isSelectionMode == s.isSelectionMode && t.isLoading == s.isLoading
  {
    s.(selectedIds := IdSet(s.images))
  }

  /** `imageAdded` collector: prepend unless an image with that id is shown. */
  function OnImageAdded(s: GalleryUiState, img: GalleryImage): (t: GalleryUiState)
    ensures IndexOfId(s.images, img.id) == -1 ==> t.images == [img] + s.images
    ensures IndexOfId(s.images, img.id) >= 0 ==> t == s
    ensures t.isSelectionMode == s.isSelectionMode && t.selectedIds == s.selectedIds && t.isLoading == s.isLoading
  {
    if forall k :: 0 <= k < |s.images| ==> s.images[k].id != img.id then s.(images := [img] + s.images)
    else s
  }

  /** The selection is non-empty exactly in selection mode. */
  predicate SelectionConsistent(s: GalleryUiState) {
    s.isSelectionMode <==> s.selectedIds != {}
  }

  /** Entering, leaving and toggling inside selection mode keep the selection and the mode in step. */
  lemma SelectionStaysConsistent(s: GalleryUiState, id: string)
    ensures SelectionConsistent(EnterSelectionMode(s, id))
    ensures SelectionConsistent(ExitSelectionMode(s))
    ensures s.isSelectionMode ==> SelectionConsistent(ToggleSelection(s, id))
  {
  }

  /** Outside selection mode, toggling an id selects it without entering the mode. */
  lemma ToggleOutsideSelectionMode(s: GalleryUiState, id: string)
    requires !s.isSelectionMode && s.selectedIds == {}
    ensures ToggleSelection(s, id).selectedIds == {id} && !ToggleSelection(s, id).isSelectionMode
  {
  }

  /** Toggling the same id twice in a selection it does not empty restores the state. */
  lemma ToggleTwice(s: GalleryUiState, id: string)
    requires s.selectedIds != {} && s.selectedIds != {id}
    ensures ToggleSelection(ToggleSelection(s, id), id) == s
  {
    var t := ToggleSelection(s, id);
    if id in s.selectedIds {
      var other :| other in s.selectedIds && other != id;
      assert other in t.selectedIds;
    } else {
      var other :| other in s.selectedIds;
      assert other in t.selectedIds - {id};
    }
  }

  /** A second event for the same image changes nothing. */
  lemma OnImageAddedIdempotent(s: GalleryUiState, img: GalleryImage)
    ensures OnImageAdded(OnImageAdded(s, img), img) == OnImageAdded(s, img)
  {
    var t := OnImageAdded(s, img);
    assert t.images[0] == img || t == s;
  }

  // ---------------------------------------------------------------------------
  // The view model

  class GalleryViewModel {
    var uiState: GalleryUiState
    /** Ids handed to `repository.deleteImage`, in order. */
    ghost var deleteRequests: seq<string>

    constructor ()
      ensures uiState == InitialState && deleteRequests == []
    {
      uiState := InitialState;
      deleteRequests := [];
    }

    /** `loadImages`: the list becomes what the repository loaded. */
    method LoadImages(loaded: seq<GalleryImage>)
      modifies this`uiState
      ensures uiState == old(uiState).(images := loaded, isLoading := false)
    {
      uiState := uiState.(isLoading := true);
      uiState := uiState.(images := loaded, isLoading := false);
    }

    /** `importImage`: the repository's emitted record, if any, arrives through `OnImageAdded`. */
    method ImportImage(added: Option<GalleryImage>)
      modifies this`uiState
      ensures added.None? ==> uiState == old(uiState).(isLoading := false)
      ensures added.Some? ==> uiState == OnImageAdded(old(uiState), added.value).(isLoading := false)
    {
      uiState := uiState.(isLoading := true);
      if added.Some? {
        uiState := OnImageAdded(uiState, added.value);
      }
      uiState := uiState.(isLoading := false);
    }

    /** `deleteImage`: on repository success the id leaves the list and the selection; otherwise nothing changes. */
    method DeleteImage(id: string, success: bool)
      modifies this
      ensures deleteRequests == old(deleteRequests) + [id]
      ensures !success ==> uiState == old(uiState)
      ensures success ==> uiState == old(uiState).(images := RemoveIds(old(uiState).images, {id}),
                                                selectedIds := old(uiState).selectedIds - {id})
    {
      deleteRequests := deleteRequests + [id];
      if success {
        uiState := uiState.(images := RemoveIds(uiState.images, {id}), selectedIds := uiState.selectedIds - {id});
      }
    }

    /**
     * `deleteSelected`: asks the repository to delete every selected id once,
     * whatever it answers, then drops all of them from the list and leaves
     * selection mode.
     */
    method DeleteSelected()
      modifies this
      ensures |deleteRequests| == |old(deleteRequests)| + |old(uiState).selectedIds|
      ensures deleteRequests[..|old(deleteRequests)|] == old(deleteRequests)
      ensures forall id :: id in deleteRequests[|old(deleteRequests)|..] <==> id in old(uiState).selectedIds
      ensures uiState == old(uiState).(images := RemoveIds(old(uiState).images, old(uiState).selectedIds),
                                       isSelectionMode := false, selectedIds := {})
    {
      var idsToDelete := uiState.selectedIds;
      ghost var start := deleteRequests;
      var remaining := idsToDelete;
      while remaining != {}
        invariant remaining <= idsToDelete
        invariant |deleteRequests| == |start| + |idsToDelete| - |remaining|
        invariant deleteRequests[..|start|] == start
        invariant forall id :: id in deleteRequests[|start|..] <==> id in idsToDelete - remaining
        invariant uiState == old(uiState)
        decreases |remaining|
      {
        var id :| id in remaining;
        ghost var before := deleteRequests;
        deleteRequests := deleteRequests + [id];
        assert deleteRequests[|start|..] == before[|start|..] + [id];
        remaining := remaining - {id};
      }
      uiState := uiState.(images := RemoveIds(uiState.images, idsToDelete), isSelectionMode := false, selectedIds := {});
    }
  }
}
