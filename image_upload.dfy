/**
 * The listing form's image picker: a bounded list of image data URLs that a drop
 * extends and a remove button shrinks. Reading the dropped files into data URLs is
 * done by the browser, so a drop is given the URLs it produced.
 */
module ImageUpload {
  import opened Wrappers

  /** The picker's capacity when none is configured. */
  const DefaultMaxImages := 6

  /** `s` with the element at position `index` left out; any other index leaves `s` as is. */
  function WithoutIndex(s: seq<string>, index: int): (r: seq<string>)
    ensures 0 <= index < |s| ==> r == s[..index] + s[index + 1..]
    ensures !(0 <= index < |s|) ==> r == s
    ensures |r| == if 0 <= index < |s| then |s| - 1 else |s|
  {
    if s == [] then []
    else
      var last := |s| - 1;
      assert s == s[..last] + [s[last]];
      WithoutIndex(s[..last], index) + (if last == index then [] else [s[last]])
  }

  class ImagePicker {
    const maxImages: int
    var images: seq<string>
    var isUploading: bool

    /** Holds whenever the picker has any images: it never holds more than `maxImages`. */
    ghost predicate Valid()
      reads this
    {
      images == [] || |images| <= maxImages
    }

    constructor (maxImagesProp: Option<int>)
      ensures Valid()
      ensures maxImages == maxImagesProp.GetOr(DefaultMaxImages)
      ensures images == [] && !isUploading
    {
      maxImages := maxImagesProp.GetOr(DefaultMaxImages);
      images := [];
      isUploading := false;
    }

    /** How many more files the drop zone accepts. */
    function MaxFiles(): (n: int)
      reads this
      ensures n + |images| == maxImages
      ensures Valid() && images != [] ==> n >= 0
    {
      maxImages - |images|
    }

    /**
     * A drop of files whose data URLs are `urls`: refused, leaving the list as it was,
     * when the list would grow past `maxImages`; otherwise the URLs are appended after
     * the existing images, in order, and the uploading flag is cleared again. An
     * accepted drop reports the new list to the form (`notified`); a refused one reports
     * nothing.
     */
    method OnDrop(urls: seq<string>) returns (accepted: bool, notified: Option<seq<string>>)
      requires Valid()
      modifies this
      ensures Valid()
      ensures accepted <==> |old(images)| + |urls| <= maxImages
      ensures accepted ==> images == old(images) + urls && !isUploading && notified == Some(images)
      ensures !accepted ==> images == old(images) && isUploading == old(isUploading) && notified.None?
    {
      if |images| + |urls| > maxImages {
        return false, None;
      }
      isUploading := true;
      images := images + urls;
      notified := Some(images);
      isUploading := false;
      accepted := true;
    }

    /** Removes the image at `index`, keeping the others in order, and reports the new list. */
    method RemoveImage(index: int) returns (notified: seq<string>)
      requires Valid()
      modifies this
      ensures Valid()
      ensures images == WithoutIndex(old(images), index) && notified == images
      ensures isUploading == old(isUploading)
    {
      images := WithoutIndex(images, index);
      notified := images;
    }
  }

  /**
   * A drop that fits in the remaining room is accepted, and removing what it added
   * (last first) gives back the earlier list.
   */
  method DropThenRemove(p: ImagePicker, url: string) returns (accepted: bool)
    requires p.Valid()
    modifies p
    ensures p.Valid()
    ensures accepted <==> 1 <= old(p.MaxFiles())
    ensures p.images == old(p.images)
  {
    var n := |p.images|;
    var notified;
    accepted, notified := p.OnDrop([url]);
    if accepted {
      var _ := p.RemoveImage(n);
    }
  }
}
