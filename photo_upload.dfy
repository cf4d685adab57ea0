/**
 * The photo picker of the visit form: admitting a selection of files into
 * the visit's photo list, and removing one photo.
 */
module PhotoUpload {
  import opened Wrappers
  import opened Text
  import opened Seqs

  /** The picker's `maxPhotos` when its caller gives none. */
  const DefaultMaxPhotos: nat := 10

  /** The largest file admitted, in bytes (5 MiB). */
  const MaxFileSize: nat := 5 * 1024 * 1024

  /** A selected file: its name, MIME type and size in bytes. */
  datatype File = File(name: string, mimeType: string, size: nat)

  /** A file is kept when its type is an image type and it is at most 5 MiB. */
  predicate Admissible(f: File)
    ensures Admissible(f) <==> f.size <= 5242880 && |f.mimeType| >= 6 && f.mimeType[..6] == "image/"
  {
    StartsWith(f.mimeType, "image/") && f.size <= MaxFileSize
  }

  /** The size limit is inclusive: exactly 5 MiB passes, one byte more does not. */
  lemma SizeLimitIsInclusive(name: string, mimeType: string)
    requires StartsWith(mimeType, "image/")
    ensures Admissible(File(name, mimeType, 5242880))
    ensures !Admissible(File(name, mimeType, 5242881))
    ensures !Admissible(File(name, "application/pdf", 1))
  {
    assert "application/pdf"[0] != "image/"[0];
  }

  /**
   * The encodings of the admissible files, in selection order. `encode`
   * stands for the conversion of a file to a data URL.
   */
  function Encoded(files: seq<File>, encode: File -> string): (r: seq<string>)
    ensures |r| <= |files|
  {
    if files == [] then []
    else
      var last := files[|files| - 1];
      Encoded(files[..|files| - 1], encode) + (if Admissible(last) then [encode(last)] else [])
  }

  /** The encodings are exactly the admissible files, kept in order, then encoded. */
  lemma {:induction false} EncodedIsFilterThenMap(files: seq<File>, encode: File -> string)
    ensures Encoded(files, encode) == MapSeq(Filter(files, Admissible), encode)
    decreases |files|
  {
    if files != [] {
      var init, last := files[..|files| - 1], files[|files| - 1];
      EncodedIsFilterThenMap(init, encode);
      assert files == init + [last];
      FilterSnoc(init, last, Admissible);
      var kept, added := Filter(init, Admissible), if Admissible(last) then [last] else [];
      assert Filter(files, Admissible) == kept + added;
      MapSeqAppend(kept, added, encode);
    }
  }

  /** What a selection does to the photo list. */
  datatype Selection =
    | Ignored                      // nothing was selected
    | Rejected                     // too many files: the list is left as it was
    | Updated(photos: seq<string>) // the list handed back to the form

  /** What the picker does with a selection (`files` is absent when the input reports none). */
  function SelectOutcome(photos: seq<string>, files: Option<seq<File>>, maxPhotos: nat, encode: File -> string): (r: Selection)
    ensures r.Updated? ==> |photos| <= |r.photos| <= maxPhotos && r.photos[..|photos|] == photos
    ensures r.Updated? <==> files.Some? && files.value != [] && |photos| + |files.value| <= maxPhotos
    ensures r.Updated? ==> r.photos == photos + MapSeq(Filter(files.value, Admissible), encode)
    ensures r == Ignored <==> files.None? || files.value == []
  {
    if files.None? || files.value == [] then Ignored
    else if |photos| + |files.value| > maxPhotos then Rejected
    else
      var r := photos + Encoded(files.value, encode);
      EncodedIsFilterThenMap(files.value, encode);
      assert r[..|photos|] == photos;
      Updated(r)
  }

  /**
   * The capacity test counts every selected file, including those later
   * skipped: two photos, a limit of three, and one image beside one PDF is
   * refused although only one file would have been kept.
   */
  lemma CapacityCountsSkippedFiles(encode: File -> string)
    ensures var image, pdf := File("a.jpg", "image/jpeg", 1000), File("b.pdf", "application/pdf", 1000);
      && |Encoded([image, pdf], encode)| == 1
      && SelectOutcome(["p1", "p2"], Some([image, pdf]), 3, encode) == Rejected
  {
    var image, pdf := File("a.jpg", "image/jpeg", 1000), File("b.pdf", "application/pdf", 1000);
    assert [image, pdf][..1] == [image];
    assert [image][..0] == [];
    assert StartsWith("image/jpeg", "image/");
    assert !StartsWith("application/pdf", "image/") by {
      assert "application/pdf"[0] != "image/"[0];
    }
  }

  /**
   * `handleFileSelect`: refuses the whole selection when the list would
   * overflow, otherwise encodes each admissible file in turn and hands back
   * the old photos followed by the new ones.
   */
  method HandleFileSelect(photos: seq<string>, files: Option<seq<File>>, maxPhotos: nat, encode: File -> string)
    returns (outcome: Selection)
    ensures outcome == SelectOutcome(photos, files, maxPhotos, encode)
  {
    if files.None? || |files.value| == 0 {
      return Ignored;
    }
    var selected := files.value;
    if |photos| + |selected| > maxPhotos {
      return Rejected;
    }
    var newPhotos: seq<string> := [];
    for i := 0 to |selected|
      invariant newPhotos == Encoded(selected[..i], encode)
    {
      var file := selected[i];
      assert selected[..i + 1][..i] == selected[..i];
      if !StartsWith(file.mimeType, "image/") {
        continue;
      }
      if file.size > MaxFileSize {
        continue;
      }
      newPhotos := newPhotos + [encode(file)];
    }
    assert selected[..|selected|] == selected;
    return Updated(photos + newPhotos);
  }

  /** `removePhoto(index)`: the photos at every position except `index`, in order. */
  function RemovePhoto(photos: seq<string>, index: int): (r: seq<string>)
    ensures 0 <= index < |photos| ==> r == photos[..index] + photos[index + 1..]
    ensures !(0 <= index < |photos|) ==> r == photos
    decreases |photos|
  {
    if photos == [] then []
    else
      var rest := RemovePhoto(photos[1..], index - 1);
      assert 0 < index < |photos| ==> photos[1..][..index - 1] == photos[1..index];
      assert 0 < index < |photos| ==> photos[..index] == [photos[0]] + photos[1..index];
      (if index == 0 then [] else [photos[0]]) + rest
  }

  /** The add button is disabled while encoding and once the list is full. */
  predicate AddDisabled(photos: seq<string>, maxPhotos: nat, isUploading: bool) {
    isUploading || |photos| >= maxPhotos
  }

  /** When the add button is enabled there is room for at least one more photo. */
  lemma EnabledMeansRoom(photos: seq<string>, maxPhotos: nat, isUploading: bool)
    ensures !AddDisabled(photos, maxPhotos, isUploading) ==> |photos| + 1 <= maxPhotos
    ensures AddDisabled(photos, maxPhotos, false) <==> |photos| >= maxPhotos
  {
  }

  /**
   * An enabled add button accepts a one-file selection; under the default
   * limit of ten, the button is enabled exactly while fewer than ten photos
   * are attached.
   */
  lemma EnabledAcceptsOneFile(photos: seq<string>, maxPhotos: nat, f: File, encode: File -> string)
    ensures !AddDisabled(photos, maxPhotos, false) ==> SelectOutcome(photos, Some([f]), maxPhotos, encode).Updated?
    ensures !AddDisabled(photos, DefaultMaxPhotos, false) <==> |photos| < 10
  {
  }
}
