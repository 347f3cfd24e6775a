/** `ProductForm.clean_image`: the checks an uploaded product image must pass.
    Only the integer facts the check reads are modelled: whether an image is there,
    its size in bytes and its pixel dimensions. */
module ProductForm {
  import opened Wrappers

  /** An image as the form sees it.  A file object is truthy when its name is
      non-empty. */
  datatype ImageFile = ImageFile(name: string, size: int, width: int, height: int)

  datatype ImageError =
    | FileTooLarge         // more than 1 MB
    | DimensionsTooLarge   // wider than 800 or higher than 600 pixels
    | Unreadable           // no image, or an empty one

  const MaxImageBytes: int := 1024 * 1024
  const MaxImageWidth: int := 800
  const MaxImageHeight: int := 600

  /** `if image:` holds. */
  predicate Present(image: Option<ImageFile>)
  {
    image.Some? && |image.value.name| > 0
  }

  /** The image is within every bound (each bound itself allowed). */
  predicate WithinBounds(f: ImageFile)
  {
    f.size <= MaxImageBytes && f.width <= MaxImageWidth && f.height <= MaxImageHeight
  }

  /** `clean_image`: a missing image is refused, then the size is checked, then the
      dimensions; an image that passes is returned as it came. */
  function CleanImage(image: Option<ImageFile>): (r: Result<ImageFile, ImageError>)
    ensures r.Success? <==> Present(image) && WithinBounds(image.value)
    ensures r.Success? ==> r.value == image.value
    ensures !Present(image) ==> r == Failure(Unreadable)
    ensures Present(image) && image.value.size > 1048576 ==> r == Failure(FileTooLarge)
    ensures Present(image) && image.value.size <= 1048576 ==>
              (image.value.height > 600 || image.value.width > 800 <==> r == Failure(DimensionsTooLarge))
  {
    if Present(image) then
      var f := image.value;
      if f.size > MaxImageBytes then Failure(FileTooLarge)
      else if f.height > MaxImageHeight || f.width > MaxImageWidth then Failure(DimensionsTooLarge)
      else Success(f)
    else
      Failure(Unreadable)
  }

  /** The bounds are inclusive: exactly 1 MB at 800 x 600 passes, one more byte or
      pixel in either direction does not. */
  lemma BoundsAreInclusive(name: string)
    requires |name| > 0
    ensures CleanImage(Some(ImageFile(name, 1048576, 800, 600))).Success?
    ensures CleanImage(Some(ImageFile(name, 1048577, 800, 600))) == Failure(FileTooLarge)
    ensures CleanImage(Some(ImageFile(name, 1048576, 801, 600))) == Failure(DimensionsTooLarge)
    ensures CleanImage(Some(ImageFile(name, 1048576, 800, 601))) == Failure(DimensionsTooLarge)
  {
  }

  /** An accepted image stays accepted when made smaller in any respect. */
  lemma SmallerImageStaysAccepted(f: ImageFile, g: ImageFile)
    requires CleanImage(Some(f)).Success?
    requires |g.name| > 0 && g.size <= f.size && g.width <= f.width && g.height <= f.height
    ensures CleanImage(Some(g)) == Success(g)
  {
  }
}
