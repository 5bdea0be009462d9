/**
 * The gallery repository: every operation loads the index file, changes the
 * list of records in memory and writes it back whole. The state is the
 * index file's content and the set of image uris whose files exist; the
 * mutex is modelled by running each operation as one atomic step.
 */
module Gallery {
  import opened Wrappers
  import opened Text
  import opened OcrTypes
  import opened GalleryIndex

  /** The records `loadIndexInternal` reads from `index` when exactly the files in `files` exist. */
  function Stored(index: Option<string>, files: set<string>, dec: string -> Option<string>): (r: seq<GalleryImage>)
    ensures SortedDesc(r)
    ensures forall k :: 0 <= k < |r| ==> r[k].uri in files
  {
    LoadIndex(index, u => u in files, dec)
  }

  /** `images[index] = images[index].copy(ocrResultsJson = json, ocrProcessed = true)` at the first record with the id, if any. */
  function UpdateFirst(images: seq<GalleryImage>, id: string, json: string): (r: seq<GalleryImage>)
    ensures |r| == |images|
    ensures var k := IndexOfId(images, id);
            forall i :: 0 <= i < |r| && i != k ==> r[i] == images[i]
    ensures var k := IndexOfId(images, id);
            k >= 0 ==> r[k] == images[k].(ocrResultsJson := Some(json), ocrProcessed := true)
  {
    var k := IndexOfId(images, id);
    if k < 0 then images
    else images[k := images[k].(ocrResultsJson := Some(json), ocrProcessed := true)]
  }

  /** `getImage`: the first record with the id. */
  function FindImage(images: seq<GalleryImage>, id: string): (r: Option<GalleryImage>)
    ensures r.None? <==> IndexOfId(images, id) == -1
    ensures r.Some? ==> r.value == images[IndexOfId(images, id)]
  {
    var k := IndexOfId(images, id);
    if k < 0 then None else Some(images[k])
  }

  /** `getCachedOcrResults`: `None` unless OCR has run and JSON is stored; JSON that fails to parse gives no results. */
  function GetCachedOcrResults(img: GalleryImage, deserialize: string -> seq<OcrResult>): (r: Option<seq<OcrResult>>)
    ensures r.Some? <==> img.ocrProcessed && img.ocrResultsJson.Some?
    ensures r.Some? ==> r.value == deserialize(img.ocrResultsJson.value)
  {
    if !img.ocrProcessed || img.ocrResultsJson.None? then None
    else Some(deserialize(img.ocrResultsJson.value))
  }

  class GalleryRepository {
    /** The index file's content, `None` while the file does not exist. */
    var indexFile: Option<string>
    /** Uris whose image file exists. */
    var files: set<string>
    /** Every image emitted on `imageAdded`, in order. */
    ghost var added: seq<GalleryImage>
    const enc: string -> string
    const dec: string -> Option<string>

    constructor (index: Option<string>, existing: set<string>, encode: string -> string, decode: string -> Option<string>)
      ensures indexFile == index && files == existing && added == [] && enc == encode && dec == decode
    {
      indexFile := index;
      files := existing;
      added := [];
      enc := encode;
      dec := decode;
    }

    function Images(): seq<GalleryImage>
      reads this
    {
      Stored(indexFile, files, dec)
    }

    /** `saveIndexInternal`: on a failed write the old file stays. */
    method SaveIndex(images: seq<GalleryImage>, writeOk: bool)
      modifies this
      ensures indexFile == (if writeOk then Some(Serialize(images, enc)) else old(indexFile))
      ensures files == old(files) && added == old(added)
    {
      if writeOk {
        indexFile := Some(Serialize(images, enc));
      }
    }

    /**
     * `saveCapture` and `importImage`: write the image file, then put the new
     * record at the head of the loaded list, save, and emit it. A failed file
     * write returns `None` and changes nothing. `fileCreated` is false when
     * the import's input stream was null: the record is still added.
     */
    method AddImage(id: string, uri: string, now: int, failed: bool, fileCreated: bool, writeOk: bool)
      returns (r: Option<GalleryImage>)
      modifies this
      ensures failed ==> r == None && indexFile == old(indexFile) && files == old(files) && added == old(added)
      ensures !failed ==>
                && r == Some(NewImage(id, uri, now))
                && files == old(files) + (if fileCreated then {uri} else {})
                && indexFile == (if writeOk then Some(Serialize([r.value] + Stored(old(indexFile), files, dec), enc))
                                 else old(indexFile))
                && added == old(added) + [r.value]
    {
      if failed {
        return None;
      }
      if fileCreated {
        files := files + {uri};
      }
      var image := NewImage(id, uri, now);
      var images := Images();
      images := [image] + images;
      SaveIndex(images, writeOk);
      added := added + [image];
      r := Some(image);
    }

    /**
     * `deleteImage`: an id with no record returns false and writes nothing;
     * otherwise the first such record's file is deleted, every record with
     * the id is removed, and the list is saved.
     */
    method DeleteImage(id: string, writeOk: bool) returns (ok: bool)
      modifies this
      ensures var before := Stored(old(indexFile), old(files), dec);
              ok <==> IndexOfId(before, id) >= 0
      ensures !ok ==> indexFile == old(indexFile) && files == old(files) && added == old(added)
      ensures var before := Stored(old(indexFile), old(files), dec);
              ok ==>
                && files == old(files) - {before[IndexOfId(before, id)].uri}
                && indexFile == (if writeOk then Some(Serialize(RemoveId(before, id), enc)) else old(indexFile))
                && added == old(added)
    {
      var images := Images();
      var k := IndexOfId(images, id);
      if k < 0 {
        return false;
      }
      files := files - {images[k].uri};
      SaveIndex(RemoveId(images, id), writeOk);
      ok := true;
    }

    /** `updateImageOcr`: rewrites the first record with the id; an absent id writes nothing. */
    method UpdateImageOcr(id: string, json: string, writeOk: bool)
      modifies this
      ensures var before := Stored(old(indexFile), old(files), dec);
              indexFile == (if IndexOfId(before, id) >= 0 && writeOk then Some(Serialize(UpdateFirst(before, id, json), enc))
                            else old(indexFile))
      ensures files == old(files) && added == old(added)
    {
      var images := Images();
      var k := IndexOfId(images, id);
      if k >= 0 {
        images := images[k := images[k].(ocrResultsJson := Some(json), ocrProcessed := true)];
        SaveIndex(images, writeOk);
      }
    }

    /** `loadImages` (and `getAllImages`, which is the same): the records, newest first, whose files exist. */
    method LoadImages() returns (images: seq<GalleryImage>)
      ensures images == Stored(indexFile, files, dec)
      ensures SortedDesc(images) && forall k :: 0 <= k < |images| ==> images[k].uri in files
    {
      images := Images();
    }

    /** `getImage`: the first loaded record with the id. */
    method GetImage(id: string) returns (r: Option<GalleryImage>)
      ensures r == FindImage(Stored(indexFile, files, dec), id)
      ensures r.Some? ==> r.value.id == id && r.value.uri in files
    {
      var images := Images();
      r := FindImage(images, id);
    }
  }

  // ---------------------------------------------------------------------------
  // What a later load sees

  lemma {:induction false} SortDescOfSorted(s: seq<GalleryImage>)
    requires SortedDesc(s)
    ensures SortDesc(s) == s
    decreases |s|
  {
    if s != [] {
      var t := s[1..];
      SortedTail(s);
      SortDescOfSorted(t);
      if t != [] {
        assert t[0] == s[1];
      }
      InsertAtFront(s[0], t);
      assert s == [s[0]] + t;
    }
  }


  /** A record not older than the head of a list is inserted in front of it. */
  lemma InsertAtFront(x: GalleryImage, t: seq<GalleryImage>)
    requires t == [] || x.timestamp >= t[0].timestamp
    ensures Insert(x, t) == [x] + t
  {
  }

  /** A sorted list of storable records whose files exist reads back unchanged. */
  lemma ReloadSorted(images: seq<GalleryImage>, files: set<string>, enc: string -> string, dec: string -> Option<string>)
    requires CodecInverse(enc, dec)
    requires SortedDesc(images)
    requires forall k :: 0 <= k < |images| ==> Storable(images[k]) && images[k].uri in files
    ensures Stored(Some(Serialize(images, enc)), files, dec) == images
  {
    LoadSerialize(images, enc, dec, u => u in files);
    SortDescOfSorted(images);
  }

  /** A capture newer than every stored record is read back first, followed by the others in their order. */
  lemma ReloadAfterAdd(img: GalleryImage, images: seq<GalleryImage>, files: set<string>,
                       enc: string -> string, dec: string -> Option<string>)
    requires CodecInverse(enc, dec)
    requires SortedDesc(images)
    requires forall k :: 0 <= k < |images| ==> img.timestamp >= images[k].timestamp
    requires Storable(img) && img.uri in files
    requires forall k :: 0 <= k < |images| ==> Storable(images[k]) && images[k].uri in files
    ensures Stored(Some(Serialize([img] + images, enc)), files, dec) == [img] + images
  {
    var s := [img] + images;
    forall p, q | 0 <= p < q < |s| ensures s[p].timestamp >= s[q].timestamp {
      assert s[q] == images[q - 1];
      if p > 0 { assert s[p] == images[p - 1]; }
    }
    ReloadSorted(s, files, enc, dec);
  }

  lemma {:induction false} RemoveIdSorted(images: seq<GalleryImage>, id: string)
    requires SortedDesc(images)
    ensures SortedDesc(RemoveId(images, id))
    decreases |images|
  {
    if images != [] {
      var tail := images[1..];
      SortedTail(images);
      RemoveIdSorted(tail, id);
      var rest := RemoveId(tail, id);
      if images[0].id != id {
        SortedCons(images[0], rest);
        assert RemoveId(images, id) == [images[0]] + rest;
      } else {
        assert RemoveId(images, id) == rest;
      }
    }
  }

  /** After a delete, a reload gives exactly the other records, in their order, when their files remain. */
  lemma ReloadAfterDelete(images: seq<GalleryImage>, id: string, files: set<string>,
                          enc: string -> string, dec: string -> Option<string>)
    requires CodecInverse(enc, dec)
    requires SortedDesc(images)
    requires forall k :: 0 <= k < |images| ==> Storable(images[k])
    requires forall k :: 0 <= k < |images| && images[k].id != id ==> images[k].uri in files
    ensures Stored(Some(Serialize(RemoveId(images, id), enc)), files, dec) == RemoveId(images, id)
  {
    var r := RemoveId(images, id);
    RemoveIdSorted(images, id);
    forall k | 0 <= k < |r| ensures Storable(r[k]) && r[k].uri in files {
      assert r[k] in images;
    }
    ReloadSorted(r, files, enc, dec);
  }

  /** After an OCR update, a reload gives the updated list: timestamps are untouched, so the order is too. */
  lemma ReloadAfterUpdate(images: seq<GalleryImage>, id: string, json: string, files: set<string>,
                          enc: string -> string, dec: string -> Option<string>)
    requires CodecInverse(enc, dec)
    requires SortedDesc(images) && json != ""
    requires forall k :: 0 <= k < |images| ==> Storable(images[k]) && images[k].uri in files
    ensures Stored(Some(Serialize(UpdateFirst(images, id, json), enc)), files, dec) == UpdateFirst(images, id, json)
  {
    var r := UpdateFirst(images, id, json);
    assert forall k :: 0 <= k < |r| ==> r[k].timestamp == images[k].timestamp && r[k].uri == images[k].uri;
    ReloadSorted(r, files, enc, dec);
  }
}
