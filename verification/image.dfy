/**
 `Image`: a frame that displays an image while keeping its aspect ratio. A pure
 data holder; this module models its constructor and setters.
 */
module ImageWidget {
  import opened Primitives

  datatype Image = Image(
    path: string,
    clip: Option<Rectangle>,
    width: Length,
    height: Length,
    alignSelf: Option<Align>)

  datatype Field = PathField | ClipField | WidthField | HeightField | AlignSelfField

  /** `a` and `b` agree on every field except possibly `f`. */
  ghost predicate AgreeExcept(a: Image, b: Image, f: Field)
  {
    && (f != PathField ==> a.path == b.path)
    && (f != ClipField ==> a.clip == b.clip)
    && (f != WidthField ==> a.width == b.width)
    && (f != HeightField ==> a.height == b.height)
    && (f != AlignSelfField ==> a.alignSelf == b.alignSelf)
  }

  /** `Image::new`: the whole image at its intrinsic size, aligned by its parent. */
  function New(path: string): (i: Image)
    ensures i.path == path
    ensures i.clip == None
    ensures i.width == Shrink && i.height == Shrink
    ensures i.alignSelf == None
  {
    Image(path, None, Shrink, Shrink, None)
  }

  /** Restricts drawing to the portion `clip` of the image. */
  function Clip(i: Image, clip: Rectangle): (r: Image)
    ensures r.clip == Some(clip) && AgreeExcept(i, r, ClipField)
  {
    i.(clip := Some(clip))
  }

  function Width(i: Image, width: Length): (r: Image)
    ensures r.width == width && AgreeExcept(i, r, WidthField)
  {
    i.(width := width)
  }

  function Height(i: Image, height: Length): (r: Image)
    ensures r.height == height && AgreeExcept(i, r, HeightField)
  {
    i.(height := height)
  }

  /** Overrides the alignment the parent container would give the image. */
  function AlignSelf(i: Image, align: Align): (r: Image)
    ensures r.alignSelf == Some(align) && AgreeExcept(i, r, AlignSelfField)
  {
    i.(alignSelf := Some(align))
  }
}
