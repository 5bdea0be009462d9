/**
 * The gallery's index file: one line per image record, fields separated by
 * `|`. The writer is `joinToString`; the reader drops blank and short lines
 * and records whose file is gone, fills in defaults for missing or malformed
 * fields, and sorts by timestamp, newest first, keeping the file order among
 * equal timestamps. URL encoding of the OCR JSON and the test for a file's
 * existence are parameters.
 */
module GalleryIndex {
  import opened Wrappers
  import opened Text

  /** One stored image: its id, file uri, capture time in ms, OCR results as JSON text, and whether OCR has run. */
  datatype GalleryImage = GalleryImage(
    id: string,
    uri: string,
    timestamp: int,
    ocrResultsJson: Option<string>,
    ocrProcessed: bool)

  /** `GalleryImage(id, uri, timestamp)`: no JSON, not processed. */
  function NewImage(id: string, uri: string, timestamp: int): (img: GalleryImage)
    ensures img.id == id && img.uri == uri && img.timestamp == timestamp
    ensures img.ocrResultsJson == None && !img.ocrProcessed
  {
    GalleryImage(id, uri, timestamp, None, false)
  }

  const DELIMITER: char := '|'

  // ---------------------------------------------------------------------------
  // Writing

  function BoolToString(b: bool): (s: string)
    ensures ParseBoolStrict(s) == Some(b)
  {
    if b then "true" else "false"
  }

  /** Kotlin's `toBooleanStrictOrNull`: exactly "true" or "false". */
  function ParseBoolStrict(s: string): (r: Option<bool>)
    ensures r == Some(true) <==> s == "true"
    ensures r == Some(false) <==> s == "false"
  {
    if s == "true" then Some(true) else if s == "false" then Some(false) else None
  }

  /** The five fields the writer puts on a record's line. */
  function Fields(img: GalleryImage, enc: string -> string): (f: seq<string>)
    ensures |f| == 5 && f[0] == img.id && f[1] == img.uri
    ensures IsLong(img.timestamp) ==> ParseLong(f[2]) == Some(img.timestamp)
    ensures img.ocrResultsJson.None? ==> f[3] == ""
    ensures ParseBoolStrict(f[4]) == Some(img.ocrProcessed)
  {
    var f := [img.id, img.uri, LongToString(img.timestamp),
              (match img.ocrResultsJson case Some(j) => enc(j) case None => ""),
              BoolToString(img.ocrProcessed)];
    if IsLong(img.timestamp) then ParseLongToString(img.timestamp); f else f
  }

  function RecordLine(img: GalleryImage, enc: string -> string): (line: string)
    ensures img.id + [DELIMITER] <= line
  {
    var f := Fields(img, enc);
    JoinCons(f, DELIMITER);
    Join(f, DELIMITER)
  }

  function RecordLines(images: seq<GalleryImage>, enc: string -> string): (lines: seq<string>)
    ensures |lines| == |images|
    ensures forall k :: 0 <= k < |images| ==> lines[k] == RecordLine(images[k], enc)
  {
    if images == [] then [] else [RecordLine(images[0], enc)] + RecordLines(images[1..], enc)
  }

  /** `saveIndexInternal`'s content: the records' lines joined with "\n". */
  function Serialize(images: seq<GalleryImage>, enc: string -> string): (content: string)
    ensures images == [] ==> content == ""
    ensures images != [] ==> RecordLine(images[0], enc) <= content
  {
    Join(RecordLines(images, enc), '\n')
  }

  // ---------------------------------------------------------------------------
  // Reading

  /** What one non-blank line turns into. `DecodeFailed` aborts the whole load. */
  datatype LineOutcome = Dropped | Parsed(image: GalleryImage) | DecodeFailed

  /** One line of `loadIndexInternal`'s `mapNotNull`. */
  function ParseLine(line: string, fileExists: string -> bool, dec: string -> Option<string>): (r: LineOutcome)
    ensures |Split(line, DELIMITER)| < 3 ==> r == Dropped
    ensures r.Parsed? ==>
              var parts := Split(line, DELIMITER);
              && |parts| >= 3
              && r.image.id == parts[0] && r.image.uri == parts[1]
              && fileExists(r.image.uri)
              && r.image.timestamp == ParseLong(parts[2]).GetOr(0)
              && (r.image.ocrResultsJson.None? <==> |parts| <= 3 || parts[3] == "")
              && (r.image.ocrProcessed <==> |parts| > 4 && parts[4] == "true")
    ensures r.Parsed? && r.image.ocrResultsJson.Some? ==>
              r.image.ocrResultsJson == dec(Split(line, DELIMITER)[3])
    ensures r.DecodeFailed? <==>
              var parts := Split(line, DELIMITER);
              |parts| > 3 && parts[3] != "" && dec(parts[3]).None?
    ensures var parts := Split(line, DELIMITER);
            |parts| >= 3 && fileExists(parts[1]) && !(|parts| > 3 && parts[3] != "" && dec(parts[3]).None?)
            ==> r.Parsed?
    ensures r == Dropped <==>
              var parts := Split(line, DELIMITER);
              |parts| < 3 || (!fileExists(parts[1]) && !(|parts| > 3 && parts[3] != "" && dec(parts[3]).None?))
  {
    var parts := Split(line, DELIMITER);
    if |parts| < 3 then Dropped
    else
      var timestamp := ParseLong(parts[2]).GetOr(0);
      var encoded := if |parts| > 3 && parts[3] != "" then Some(parts[3]) else None;
      var processed := if |parts| > 4 then ParseBoolStrict(parts[4]).GetOr(false) else false;
      if encoded.Some? && dec(encoded.value).None? then DecodeFailed
      else
        var json := if encoded.Some? then dec(encoded.value) else None;
        if fileExists(parts[1]) then Parsed(GalleryImage(parts[0], parts[1], timestamp, json, processed))
        else Dropped
  }

  /** `filter { it.isNotBlank() }`. */
  function NonBlank(lines: seq<string>): (r: seq<string>)
    ensures |r| <= |lines|
    ensures forall k :: 0 <= k < |r| ==> !IsBlank(r[k]) && r[k] in lines
  {
    if lines == [] then []
    else (if IsBlank(lines[0]) then [] else [lines[0]]) + NonBlank(lines[1..])
  }

  /** The `mapNotNull` over the non-blank lines; `None` when some line's JSON fails to decode. */
  function ParseAll(lines: seq<string>, fileExists: string -> bool, dec: string -> Option<string>): (r: Option<seq<GalleryImage>>)
    ensures r.Some? ==> |r.value| <= |lines| && forall k :: 0 <= k < |r.value| ==> fileExists(r.value[k].uri)
  {
    if lines == [] then Some([])
    else
      match ParseLine(lines[0], fileExists, dec)
      case DecodeFailed => None
      case Dropped => ParseAll(lines[1..], fileExists, dec)
      case Parsed(img) =>
        match ParseAll(lines[1..], fileExists, dec)
        case None => None
        case Some(rest) => Some([img] + rest)
  }

  /** Newest first. */
  predicate SortedDesc(s: seq<GalleryImage>) {
    forall p, q :: 0 <= p < q < |s| ==> s[p].timestamp >= s[q].timestamp
  }

  /** Put `x` before the first element that is not newer than it. */
  function Insert(x: GalleryImage, s: seq<GalleryImage>): (r: seq<GalleryImage>)
    ensures multiset(r) == multiset(s) + multiset{x}
  {
    if s == [] || x.timestamp >= s[0].timestamp then [x] + s
    else
      assert s == [s[0]] + s[1..];
      [s[0]] + Insert(x, s[1..])
  }

  /** The tail of a sorted list is sorted and not newer than its head. */
  lemma SortedTail(s: seq<GalleryImage>)
    requires SortedDesc(s) && s != []
    ensures SortedDesc(s[1..])
    ensures forall y :: y in s[1..] ==> s[0].timestamp >= y.timestamp
  {
    var t := s[1..];
    forall p, q | 0 <= p < q < |t| ensures t[p].timestamp >= t[q].timestamp {
      assert t[p] == s[p + 1] && t[q] == s[q + 1];
    }
    forall y | y in t ensures s[0].timestamp >= y.timestamp {
      var i :| 0 <= i < |t| && t[i] == y;
      assert s[i + 1] == y;
    }
  }

  /** A record at least as new as every record of a sorted list can go in front of it. */
  lemma SortedCons(x: GalleryImage, r: seq<GalleryImage>)
    requires SortedDesc(r)
    requires forall y :: y in r ==> x.timestamp >= y.timestamp
    ensures SortedDesc([x] + r)
  {
    var s := [x] + r;
    forall p, q | 0 <= p < q < |s| ensures s[p].timestamp >= s[q].timestamp {
      assert s[q] == r[q - 1] && s[q] in r;
      if p > 0 { assert s[p] == r[p - 1]; }
    }
  }

  lemma {:induction false} InsertSorted(x: GalleryImage, s: seq<GalleryImage>)
    requires SortedDesc(s)
    ensures SortedDesc(Insert(x, s))
    decreases |s|
  {
    if s == [] || x.timestamp >= s[0].timestamp {
      if s != [] {
        SortedTail(s);
        assert s == [s[0]] + s[1..];
      }
      SortedCons(x, s);
    } else {
      var tail := Insert(x, s[1..]);
      SortedTail(s);
      InsertSorted(x, s[1..]);
      forall y | y in tail ensures s[0].timestamp >= y.timestamp {
        assert y in multiset(s[1..]) + multiset{x};
      }
      SortedCons(s[0], tail);
    }
  }

  /** `sortedByDescending { it.timestamp }`, a stable sort. */
  function SortDesc(s: seq<GalleryImage>): (r: seq<GalleryImage>)
    ensures SortedDesc(r)
    ensures multiset(r) == multiset(s)
  {
    if s == [] then []
    else
      assert s == [s[0]] + s[1..];
      InsertSorted(s[0], SortDesc(s[1..]));
      Insert(s[0], SortDesc(s[1..]))
  }

  /** `loadIndexInternal`: no file means no records; a decode failure means no records. */
  function LoadIndex(content: Option<string>, fileExists: string -> bool, dec: string -> Option<string>): (r: seq<GalleryImage>)
    ensures content.None? ==> r == []
    ensures SortedDesc(r)
    ensures forall k :: 0 <= k < |r| ==> fileExists(r[k].uri)
  {
    if content.None? then []
    else
      match ParseAll(NonBlank(ReadLines(content.value)), fileExists, dec)
      case None => []
      case Some(images) =>
        var r := SortDesc(images);
        assert forall k :: 0 <= k < |r| ==> r[k] in multiset(images);
        r
  }

  // ---------------------------------------------------------------------------
  // Stability of the sort

  /** The records with timestamp `t`, in order. */
  function WithTimestamp(s: seq<GalleryImage>, t: int): (r: seq<GalleryImage>)
    ensures forall k :: 0 <= k < |r| ==> r[k].timestamp == t
  {
    if s == [] then []
    else (if s[0].timestamp == t then [s[0]] else []) + WithTimestamp(s[1..], t)
  }

  lemma {:induction false} InsertWithTimestamp(x: GalleryImage, s: seq<GalleryImage>, t: int)
    ensures WithTimestamp(Insert(x, s), t) == (if x.timestamp == t then [x] else []) + WithTimestamp(s, t)
    decreases |s|
  {
    if s == [] || x.timestamp >= s[0].timestamp {
      assert Insert(x, s) == [x] + s;
      assert ([x] + s)[1..] == s;
    } else {
      var r := Insert(x, s);
      var head: seq<GalleryImage> := if s[0].timestamp == t then [s[0]] else [];
      var mine: seq<GalleryImage> := if x.timestamp == t then [x] else [];
      assert r == [s[0]] + Insert(x, s[1..]);
      assert r[1..] == Insert(x, s[1..]);
      InsertWithTimestamp(x, s[1..], t);
      assert WithTimestamp(r, t) == head + (mine + WithTimestamp(s[1..], t));
      assert WithTimestamp(s, t) == head + WithTimestamp(s[1..], t);
      if x.timestamp == t {
        assert head == [] && head + (mine + WithTimestamp(s[1..], t)) == mine + WithTimestamp(s[1..], t);
      } else {
        assert mine + WithTimestamp(s[1..], t) == WithTimestamp(s[1..], t);
      }
    }
  }

  /** Stability: among records with equal timestamps the sort keeps the input order. */
  lemma {:induction false} SortDescStable(s: seq<GalleryImage>, t: int)
    ensures WithTimestamp(SortDesc(s), t) == WithTimestamp(s, t)
    decreases |s|
  {
    if s != [] {
      SortDescStable(s[1..], t);
      InsertWithTimestamp(s[0], SortDesc(s[1..]), t);
    }
  }

  // ---------------------------------------------------------------------------
  // Round trip

  /** What URL encoding guarantees of its output: no `|`, no line break, and "" only for "". */
  ghost predicate EncodesPlain(enc: string -> string) {
    forall j :: DELIMITER !in enc(j) && NoLineBreak(enc(j)) && (enc(j) == "" ==> j == "")
  }

  /** URL encoding is plain and decoding inverts it. */
  ghost predicate CodecInverse(enc: string -> string, dec: string -> Option<string>) {
    EncodesPlain(enc) && forall j :: dec(enc(j)) == Some(j)
  }

  /** A record the format can carry: no delimiter or line break in id and uri, a Long timestamp, and no empty JSON. */
  predicate Storable(img: GalleryImage) {
    && DELIMITER !in img.id && DELIMITER !in img.uri
    && NoLineBreak(img.id) && NoLineBreak(img.uri)
    && IsLong(img.timestamp)
    && img.ocrResultsJson != Some("")
  }

  lemma LongToStringPlain(n: int)
    ensures DELIMITER !in LongToString(n) && NoLineBreak(LongToString(n)) && LongToString(n) != []
  {
    var s := NatToString(if n < 0 then -n else n);
    assert forall c :: c in s ==> IsDigit(c);
  }

  lemma {:induction false} JoinNoLineBreak(parts: seq<string>, d: char)
    requires !IsLineBreak(d)
    requires forall k :: 0 <= k < |parts| ==> NoLineBreak(parts[k])
    ensures NoLineBreak(Join(parts, d))
    decreases |parts|
  {
    if |parts| > 1 {
      JoinNoLineBreak(parts[1..], d);
    }
  }

  lemma FieldsPlain(img: GalleryImage, enc: string -> string)
    requires EncodesPlain(enc)
    requires Storable(img)
    ensures |Fields(img, enc)| == 5
    ensures forall k :: 0 <= k < 5 ==> DELIMITER !in Fields(img, enc)[k] && NoLineBreak(Fields(img, enc)[k])
  {
    LongToStringPlain(img.timestamp);
    if img.ocrResultsJson.Some? {
      var j := img.ocrResultsJson.value;
      assert DELIMITER !in enc(j) && NoLineBreak(enc(j));
    }
  }

  lemma RecordLineSplits(img: GalleryImage, enc: string -> string)
    requires EncodesPlain(enc)
    requires Storable(img)
    ensures Split(RecordLine(img, enc), DELIMITER) == Fields(img, enc)
    ensures NoLineBreak(RecordLine(img, enc)) && !IsBlank(RecordLine(img, enc))
  {
    var f := Fields(img, enc);
    FieldsPlain(img, enc);
    SplitJoin(f, DELIMITER);
    JoinNoLineBreak(f, DELIMITER);
    var line := RecordLine(img, enc);
    assert line == f[0] + [DELIMITER] + Join(f[1..], DELIMITER);
    assert line[|f[0]|] == DELIMITER;
  }

  /** A storable record reads back as itself, given that its file exists. */
  lemma ParseRecordLine(img: GalleryImage, enc: string -> string, dec: string -> Option<string>, fileExists: string -> bool)
    requires CodecInverse(enc, dec)
    requires Storable(img) && fileExists(img.uri)
    ensures ParseLine(RecordLine(img, enc), fileExists, dec) == Parsed(img)
  {
    RecordLineSplits(img, enc);
    ParseLongToString(img.timestamp);
  }

  lemma {:induction false} NonBlankRecordLines(images: seq<GalleryImage>, enc: string -> string)
    requires EncodesPlain(enc)
    requires forall k :: 0 <= k < |images| ==> Storable(images[k])
    ensures NonBlank(RecordLines(images, enc)) == RecordLines(images, enc)
    decreases |images|
  {
    if images != [] {
      var lines := RecordLines(images, enc);
      assert lines[1..] == RecordLines(images[1..], enc);
      RecordLineSplits(images[0], enc);
      NonBlankRecordLines(images[1..], enc);
      assert lines == [lines[0]] + lines[1..];
    }
  }

  lemma ParseAllCons(line: string, lines: seq<string>, img: GalleryImage, rest: seq<GalleryImage>,
                     fileExists: string -> bool, dec: string -> Option<string>)
    requires ParseLine(line, fileExists, dec) == Parsed(img)
    requires ParseAll(lines, fileExists, dec) == Some(rest)
    ensures ParseAll([line] + lines, fileExists, dec) == Some([img] + rest)
  {
    assert ([line] + lines)[0] == line && ([line] + lines)[1..] == lines;
  }

  lemma {:induction false} ParseAllRecordLines(images: seq<GalleryImage>, enc: string -> string,
                                               dec: string -> Option<string>, fileExists: string -> bool)
    requires CodecInverse(enc, dec)
    requires forall k :: 0 <= k < |images| ==> Storable(images[k]) && fileExists(images[k].uri)
    ensures ParseAll(RecordLines(images, enc), fileExists, dec) == Some(images)
    decreases |images|
  {
    if images != [] {
      var h, t := images[0], images[1..];
      assert RecordLines(images, enc) == [RecordLine(h, enc)] + RecordLines(t, enc);
      ParseRecordLine(h, enc, dec, fileExists);
      forall k | 0 <= k < |t| ensures Storable(t[k]) && fileExists(t[k].uri) {
        assert t[k] == images[k + 1];
      }
      ParseAllRecordLines(t, enc, dec, fileExists);
      ParseAllCons(RecordLine(h, enc), RecordLines(t, enc), h, t, fileExists, dec);
      assert images == [h] + t;
    }
  }

  lemma ReadBackRecordLines(images: seq<GalleryImage>, enc: string -> string)
    requires EncodesPlain(enc)
    requires forall k :: 0 <= k < |images| ==> Storable(images[k])
    ensures ReadLines(Serialize(images, enc)) == RecordLines(images, enc)
  {
    var lines := RecordLines(images, enc);
    forall k | 0 <= k < |lines| ensures NoLineBreak(lines[k]) && lines[k] != [] {
      RecordLineSplits(images[k], enc);
      assert !IsBlank(lines[k]);
    }
    ReadLinesJoin(lines);
  }

  /**
   * Round trip: writing storable records whose files exist and reading the
   * file back gives the same records, sorted newest first, stably.
   */
  lemma LoadSerialize(images: seq<GalleryImage>, enc: string -> string,
                      dec: string -> Option<string>, fileExists: string -> bool)
    requires CodecInverse(enc, dec)
    requires forall k :: 0 <= k < |images| ==> Storable(images[k]) && fileExists(images[k].uri)
    ensures LoadIndex(Some(Serialize(images, enc)), fileExists, dec) == SortDesc(images)
  {
    var content := Serialize(images, enc);
    ReadBackRecordLines(images, enc);
    NonBlankRecordLines(images, enc);
    ParseAllRecordLines(images, enc, dec, fileExists);
    assert ParseAll(NonBlank(ReadLines(content)), fileExists, dec) == Some(images);
  }

  /** Boundary of the round trip: an empty JSON string is written as an empty field and read back as no JSON. */
  lemma EmptyJsonReadsBackAsNone(img: GalleryImage, enc: string -> string,
                                 dec: string -> Option<string>, fileExists: string -> bool)
    requires CodecInverse(enc, dec) && enc("") == ""
    requires Storable(img.(ocrResultsJson := None)) && fileExists(img.uri)
    requires img.ocrResultsJson == Some("")
    ensures LoadIndex(Some(Serialize([img], enc)), fileExists, dec) == [img.(ocrResultsJson := None)]
  {
    var plain := img.(ocrResultsJson := None);
    assert Fields(img, enc) == Fields(plain, enc);
    assert RecordLines([img], enc) == RecordLines([plain], enc);
    LoadSerialize([plain], enc, dec, fileExists);
  }

  // ---------------------------------------------------------------------------
  // List operations used by the repository

  /** `indexOfFirst { it.id == id }`: the first position with that id, or -1. */
  function IndexOfId(images: seq<GalleryImage>, id: string): (r: int)
    ensures -1 <= r < |images|
    ensures r == -1 <==> forall k :: 0 <= k < |images| ==> images[k].id != id
    ensures r >= 0 ==> images[r].id == id && forall k :: 0 <= k < r ==> images[k].id != id
  {
    if images == [] then -1
    else if images[0].id == id then 0
    else
      var r := IndexOfId(images[1..], id);
      if r == -1 then -1 else r + 1
  }

  /** `removeAll { it.id == id }`: every other record, in order. */
  function RemoveId(images: seq<GalleryImage>, id: string): (r: seq<GalleryImage>)
    ensures |r| <= |images|
    ensures forall x :: x in r <==> x in images && x.id != id
  {
    if images == [] then []
    else (if images[0].id == id then [] else [images[0]]) + RemoveId(images[1..], id)
  }

  /** Removing an id no record carries changes nothing. */
  lemma {:induction false} RemoveAbsentId(images: seq<GalleryImage>, id: string)
    requires forall k :: 0 <= k < |images| ==> images[k].id != id
    ensures RemoveId(images, id) == images
    decreases |images|
  {
    if images != [] {
      RemoveAbsentId(images[1..], id);
      assert images == [images[0]] + images[1..];
    }
  }

  /** The records removed are exactly those with the id, counted with multiplicity. */
  lemma {:induction false} RemoveIdMultiset(images: seq<GalleryImage>, id: string)
    ensures multiset(RemoveId(images, id)) + multiset(WithId(images, id)) == multiset(images)
    decreases |images|
  {
    if images != [] {
      RemoveIdMultiset(images[1..], id);
      RemoveIdMultisetCons(images, id);
    }
  }

  /** The step of `RemoveIdMultiset`: the head goes to exactly one of the two sides. */
  lemma RemoveIdMultisetCons(images: seq<GalleryImage>, id: string)
    requires images != []
    requires multiset(RemoveId(images[1..], id)) + multiset(WithId(images[1..], id)) == multiset(images[1..])
    ensures multiset(RemoveId(images, id)) + multiset(WithId(images, id)) == multiset(images)
  {
    var h, t := images[0], images[1..];
    MultisetShares(h, t, RemoveId(t, id), WithId(t, id), h.id != id);
    assert RemoveId(images, id) == (if h.id != id then [h] else []) + RemoveId(t, id);
    assert WithId(images, id) == (if h.id != id then [] else [h]) + WithId(t, id);
    assert images == [h] + t;
  }

  /** Splitting `t` into two shares and adding `h` to one of them splits `[h] + t`. */
  lemma MultisetShares<T>(h: T, t: seq<T>, r: seq<T>, w: seq<T>, toR: bool)
    requires multiset(r) + multiset(w) == multiset(t)
    ensures multiset((if toR then [h] else []) + r) + multiset((if toR then [] else [h]) + w) == multiset([h] + t)
  {
  }

  /** The records with that id, in order. */
  function WithId(images: seq<GalleryImage>, id: string): (r: seq<GalleryImage>)
    ensures forall k :: 0 <= k < |r| ==> r[k].id == id
  {
    if images == [] then []
    else (if images[0].id == id then [images[0]] else []) + WithId(images[1..], id)
  }
}
