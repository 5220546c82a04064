/**
 * The post image uploader (components/ui/image-upload.tsx): the batch limit,
 * the per-file type and size filter of `handleFileUpload`, and the drag flag
 * of `handleDrag` / `handleDrop`. The parent's `onImageAdd` callback is
 * recorded as the sequence of calls it receives; `URL.createObjectURL` is an
 * input giving one object URL per selected file.
 */
module ImageUploadComponent {
  import opened Wrappers
  import opened Text

  datatype SelectedFile = SelectedFile(name: string, mimeType: string, size: nat)

  /** One `onImageAdd(imageUrl, file.name)` call. */
  datatype AddCall = AddCall(imageUrl: string, altText: string)

  const DefaultMaxImages: nat := 5
  const MaxImageBytes: nat := 5 * 1024 * 1024

  /** The two per-file checks: an "image/" type, and at most 5 MiB. */
  predicate Admissible(f: SelectedFile) {
    StartsWith(f.mimeType, "image/") && f.size <= MaxImageBytes
  }

  /** The calls the loop makes for `files` (with their object URLs): one per admissible file, in order. */
  function AddCalls(files: seq<SelectedFile>, urls: seq<string>): (calls: seq<AddCall>)
    requires |urls| == |files|
    ensures |calls| <= |files|
  {
    if files == [] then []
    else
      var n := |files| - 1;
      AddCalls(files[..n], urls[..n]) + (if Admissible(files[n]) then [AddCall(urls[n], files[n].name)] else [])
  }

  /** A batch is handled file by file: the calls of a concatenation are the calls of its parts, in order. */
  lemma {:induction false} AddCallsConcat(f1: seq<SelectedFile>, u1: seq<string>, f2: seq<SelectedFile>, u2: seq<string>)
    requires |u1| == |f1| && |u2| == |f2|
    ensures AddCalls(f1 + f2, u1 + u2) == AddCalls(f1, u1) + AddCalls(f2, u2)
    decreases |f2|
  {
    if f2 == [] {
      assert f1 + f2 == f1 && u1 + u2 == u1;
    } else {
      var n := |f2| - 1;
      assert (f1 + f2)[..|f1| + n] == f1 + f2[..n];
      assert (u1 + u2)[..|u1| + n] == u1 + u2[..n];
      assert (f1 + f2)[|f1| + n] == f2[n];
      AddCallsConcat(f1, u1, f2[..n], u2[..n]);
    }
  }

  /** A file that passes both checks yields one call with its URL and name; any other yields none. */
  lemma AddCallsSingle(f: SelectedFile, url: string)
    ensures AddCalls([f], [url]) == if Admissible(f) then [AddCall(url, f.name)] else []
  {
    assert [f][..0] == [];
  }

  /** When every file passes, every file is added, in order. */
  lemma {:induction false} AddCallsAllAdmissible(files: seq<SelectedFile>, urls: seq<string>)
    requires |urls| == |files|
    requires forall i :: 0 <= i < |files| ==> Admissible(files[i])
    ensures AddCalls(files, urls) == seq(|files|, i requires 0 <= i < |files| => AddCall(urls[i], files[i].name))
  {
    if files != [] {
      var n := |files| - 1;
      AddCallsAllAdmissible(files[..n], urls[..n]);
    }
  }

  class ImageUploader {
    const maxImages: nat
    var isUploading: bool
    var dragActive: bool
    /** Every `onImageAdd` call made so far, oldest first. */
    var added: seq<AddCall>

    /** `maxImages` is an optional prop that defaults to 5. */
    constructor (maxImages: Option<nat>)
      ensures this.maxImages == maxImages.GetOr(DefaultMaxImages) && !isUploading && !dragActive && added == []
    {
      this.maxImages := maxImages.GetOr(DefaultMaxImages);
      isUploading := false;
      dragActive := false;
      added := [];
    }

    /** The batch check: a non-empty selection that, counted in full, keeps the post within `maxImages`. */
    predicate Admitted(files: Option<seq<SelectedFile>>, images: seq<string>) {
      files.Some? && files.value != [] && |images| + |files.value| <= maxImages
    }

    /**
     * `handleFileUpload(files)` with the parent's current `images`: an absent
     * or empty selection, or one that would take the post past `maxImages`
     * (counting every selected file), adds nothing; otherwise each admissible
     * file is added in order and the upload flag ends cleared.
     */
    method HandleFileUpload(files: Option<seq<SelectedFile>>, objectUrls: seq<string>, images: seq<string>)
      requires files.Some? ==> |objectUrls| == |files.value|
      modifies this`isUploading, this`added
      ensures !Admitted(files, images) ==> added == old(added) && isUploading == old(isUploading)
      ensures Admitted(files, images) ==> added == old(added) + AddCalls(files.value, objectUrls) && !isUploading
      ensures |images| + |added| - |old(added)| <= maxImages || added == old(added)
    {
      if files.None? || |files.value| == 0 {
        return;
      }
      var fs := files.value;
      if |images| + |fs| > maxImages {
        return;
      }
      isUploading := true;
      for i := 0 to |fs|
        invariant added == old(added) + AddCalls(fs[..i], objectUrls[..i])
      {
        assert fs[..i + 1][..i] == fs[..i] && objectUrls[..i + 1][..i] == objectUrls[..i];
        var file := fs[i];
        if !StartsWith(file.mimeType, "image/") {
          continue;
        }
        if file.size > MaxImageBytes {
          continue;
        }
        added := added + [AddCall(objectUrls[i], file.name)];
      }
      assert fs[..|fs|] == fs && objectUrls[..|fs|] == objectUrls;
      isUploading := false;
    }

    /** `handleDrag(e)`: enter and over raise the flag, leave lowers it, anything else leaves it. */
    method HandleDrag(eventType: string)
      modifies this`dragActive
      ensures dragActive == if eventType == "dragenter" || eventType == "dragover" then true
                            else if eventType == "dragleave" then false
                            else old(dragActive)
    {
      if eventType == "dragenter" || eventType == "dragover" {
        dragActive := true;
      } else if eventType == "dragleave" {
        dragActive := false;
      }
    }

    /** `handleDrop(e)`: the flag always drops; a non-empty drop goes through `handleFileUpload`. */
    method HandleDrop(files: Option<seq<SelectedFile>>, objectUrls: seq<string>, images: seq<string>)
      requires files.Some? ==> |objectUrls| == |files.value|
      modifies this
      ensures !dragActive
      ensures isUploading == if Admitted(files, images) then false else old(isUploading)
      ensures added == if Admitted(files, images) then old(added) + AddCalls(files.value, objectUrls) else old(added)
    {
      dragActive := false;
      if files.Some? && |files.value| > 0 {
        HandleFileUpload(files, objectUrls, images);
      }
    }
  }
}
