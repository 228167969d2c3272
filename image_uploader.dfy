/** The listing photo uploader (`ImageUploader`): which of the chosen files
    are uploaded, what the parent receives through `onChange` after an upload
    or a removal, and when the add tile is shown. The upload call's response
    is a parameter. Files are of any type `F`. */
module ImageUploader {
  import opened JsCore

  const DefaultMaxImages := 5

  /** `fileArray.slice(0, maxImages - images.length)`. */
  function FilesToUpload<F>(files: seq<F>, imageCount: nat, maxImages: int): (r: seq<F>)
    ensures imageCount <= maxImages ==> r == files[..Min(|files|, maxImages - imageCount)]
    ensures imageCount == maxImages ==> r == []
    ensures imageCount > maxImages ==> r == files[..Max(0, |files| - (imageCount - maxImages))]
  {
    JsSlice(files, 0, maxImages - imageCount)
  }

  /** An upload from a gallery with free slots never asks for more files than
      there are slots. */
  lemma UploadFitsFreeSlots<F>(files: seq<F>, imageCount: nat, maxImages: int)
    requires imageCount <= maxImages
    ensures imageCount + |FilesToUpload(files, imageCount, maxImages)| <= maxImages
    ensures |FilesToUpload(files, imageCount, maxImages)| == Min(|files|, maxImages - imageCount)
  {
  }

  /** What the upload call returned: the response's `imageUrls` (possibly
      missing), or a thrown error. */
  datatype UploadResponse = Uploaded(imageUrls: Option<seq<string>>) | UploadFailed

  /** The list passed to `onChange` after an upload, if it is called. */
  function AfterUpload(images: seq<string>, response: UploadResponse): (r: Option<seq<string>>)
    ensures response.UploadFailed? <==> r.None?
    ensures r.Some? ==> images <= r.value
    ensures response.Uploaded? && response.imageUrls.Some? ==> r == Some(images + response.imageUrls.value)
    ensures response.Uploaded? && response.imageUrls.None? ==> r == Some(images)
  {
    match response
    case UploadFailed => None
    case Uploaded(urls) =>
      var newImageUrls := if urls.Some? then urls.value else [];
      assert urls.None? ==> images + newImageUrls == images;
      Some(images + newImageUrls)
  }

  /** If the server returns at most one URL per uploaded file, the gallery
      never grows past `maxImages` from a state within the limit. */
  lemma GalleryStaysWithinLimit<F>(images: seq<string>, files: seq<F>, maxImages: int, urls: seq<string>)
    requires |images| <= maxImages
    requires |urls| <= |FilesToUpload(files, |images|, maxImages)|
    ensures |AfterUpload(images, Uploaded(Some(urls))).value| <= maxImages
  {
    UploadFitsFreeSlots(files, |images|, maxImages);
  }

  /** `images.filter((_, i) => i !== index)`, with `k` the index of `s[0]`. */
  function DropIndex(s: seq<string>, index: int, k: int): (r: seq<string>)
    ensures k <= index < k + |s| ==> r == s[..index - k] + s[index - k + 1..]
    ensures !(k <= index < k + |s|) ==> r == s
    decreases |s|
  {
    if s == [] then []
    else
      var rest := DropIndex(s[1..], index, k + 1);
      if index == k then
        assert rest == s[1..];
        rest
      else
        assert k < index < k + |s| ==>
          s[..index - k] == [s[0]] + s[1..][..index - k - 1] && s[index - k + 1..] == s[1..][index - k..];
        assert [s[0]] + s[1..] == s;
        [s[0]] + rest
  }

  /** `handleRemoveImage`: exactly the image at `index` goes, the rest keep
      their order, and an index outside the list changes nothing. */
  function RemoveImage(images: seq<string>, index: int): (r: seq<string>)
    ensures 0 <= index < |images| ==> r == images[..index] + images[index + 1..] && |r| == |images| - 1
    ensures !(0 <= index < |images|) ==> r == images
  {
    DropIndex(images, index, 0)
  }

  /** The add tile: only while there is a free slot. */
  predicate ShowsAddTile(imageCount: nat, maxImages: int) {
    imageCount < maxImages
  }

  /** The add tile is shown exactly when an upload could send a file. */
  lemma AddTileIffUploadPossible<F>(imageCount: nat, maxImages: int, f: F)
    requires imageCount <= maxImages
    ensures ShowsAddTile(imageCount, maxImages) <==> |FilesToUpload([f], imageCount, maxImages)| == 1
  {
  }

  class Uploader<F> {
    const maxImages: int
    var isUploading: bool
    /** The file input's `value`. */
    var inputValue: string
    /** The file lists sent to the upload call, in order. */
    var uploads: seq<seq<F>>
    /** The lists passed to `onChange`, in order. */
    var changes: seq<seq<string>>

    constructor (maxImages: Option<int>)
      ensures this.maxImages == (if maxImages.Some? then maxImages.value else DefaultMaxImages)
      ensures !isUploading && uploads == [] && changes == []
    {
      this.maxImages := if maxImages.Some? then maxImages.value else DefaultMaxImages;
      isUploading, inputValue, uploads, changes := false, "", [], [];
    }

    /** `handleFileSelect` for the `images` prop, the chosen `files` (None
        when the input has none) and the upload call's `response`. */
    method HandleFileSelect(images: seq<string>, files: Option<seq<F>>, response: UploadResponse)
      modifies this
      ensures files.None? ==> (isUploading == old(isUploading) && inputValue == old(inputValue)
        && uploads == old(uploads) && changes == old(changes))
      ensures files.Some? ==> (!isUploading && inputValue == ""
        && uploads == old(uploads) + [FilesToUpload(files.value, |images|, maxImages)]
        && changes == old(changes) + (var r := AfterUpload(images, response); if r.Some? then [r.value] else []))
    {
      if files.None? {
        return;
      }
      isUploading := true;
      var filesToUpload := JsSlice(files.value, 0, maxImages - |images|);
      uploads := uploads + [filesToUpload];
      match response {
        case Uploaded(urls) =>
          var newImageUrls := if urls.Some? then urls.value else [];
          changes := changes + [images + newImageUrls];
        case UploadFailed =>
      }
      isUploading := false;
      inputValue := "";
    }

    method HandleRemoveImage(images: seq<string>, index: int)
      modifies this
      ensures changes == old(changes) + [RemoveImage(images, index)]
      ensures isUploading == old(isUploading) && inputValue == old(inputValue) && uploads == old(uploads)
    {
      changes := changes + [RemoveImage(images, index)];
    }
  }
}
