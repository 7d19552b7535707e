/**
 * The slide records of the carousel and the two rules that turn slide
 * descriptions into them: one for plain data objects (as given in the
 * `slides` option or to `addSlides`) and one for slide nodes already in
 * the page's markup.
 */
module Slides {
  import opened Values

  /** A normalised slide: its `type` (called `kind` here), `src` and `poster`. */
  datatype Slide = Slide(kind: string, src: string, poster: string)

  /** A slide given as a data object; any of its fields may be missing. */
  datatype SlideData = SlideData(kind: Option<string>, src: Option<string>, poster: Option<string>)

  /**
   * What node normalisation reads from a slide node: its `data-type`,
   * `data-src` and `data-poster` attributes, the `src` of its first `<img>`
   * descendant (None when there is no such element) and the `poster` of its
   * first `<video>` descendant (None when there is no such element).
   */
  datatype Markup = Markup(
    dataType: Option<string>,
    dataSrc: Option<string>,
    dataPoster: Option<string>,
    img: Option<string>,
    video: Option<string>)

  const Video: string := "video"
  const Image: string := "image"

  /** Normalises a data object: a missing or empty `type` is "image", a missing `src` or `poster` is "". */
  function FromData(d: SlideData): (s: Slide)
    ensures s.kind != ""
  {
    Slide(Or(d.kind, Image), Or(d.src, ""), Or(d.poster, ""))
  }

  /**
   * Normalises a slide node: `data-type`, else "video" when the node holds a
   * video element and "image" otherwise; `data-src`, else the image's src;
   * `data-poster`, else the video's poster; "" when none of these is set.
   */
  function FromNode(m: Markup): (s: Slide)
    ensures s.kind != ""
  {
    Slide(
      Or(m.dataType, if m.video.Some? then Video else Image),
      Or(m.dataSrc, Or(m.img, "")),
      Or(m.dataPoster, Or(m.video, "")))
  }

  /** The slides of a data array, normalised one by one, in order. */
  function FromDataAll(ds: seq<SlideData>): (ss: seq<Slide>)
    ensures |ss| == |ds|
    ensures forall i :: 0 <= i < |ds| ==> ss[i] == FromData(ds[i])
  {
    seq(|ds|, i requires 0 <= i < |ds| => FromData(ds[i]))
  }

  /**
   * What node normalisation would read back from the node the carousel
   * renders for a slide: no data attributes; a video element with the
   * slide's poster when the slide's type is "video", otherwise an image
   * element with the slide's src.
   */
  function Rendered(s: Slide): (m: Markup)
    ensures m.dataType.None? && m.dataSrc.None? && m.dataPoster.None?
    ensures m.video.Some? <==> s.kind == Video
    ensures m.img.Some? <==> s.kind != Video
  {
    if s.kind == Video then Markup(None, None, None, None, Some(s.poster))
    else Markup(None, None, None, Some(s.src), None)
  }

  /** The data object that carries exactly the fields of a slide. */
  function AsData(s: Slide): (d: SlideData)
  {
    SlideData(Some(s.kind), Some(s.src), Some(s.poster))
  }

  /** Data normalisation never leaves the type empty, and keeps a type, src and poster that are given. */
  lemma FromDataDefaults(d: SlideData)
    ensures FromData(d).kind != ""
    ensures FromData(d).kind == (if Truthy(d.kind) then d.kind.value else Image)
    ensures FromData(d).src == (if d.src.Some? then d.src.value else "")
    ensures FromData(d).poster == (if d.poster.Some? then d.poster.value else "")
  {
  }

  /** Normalising a slide that is already normalised changes nothing. */
  lemma FromDataIdempotent(d: SlideData)
    ensures FromData(AsData(FromData(d))) == FromData(d)
  {
  }

  /** A node with no media children is normalised exactly as a data object carrying its data attributes. */
  lemma NodeWithoutMediaIsData(m: Markup)
    requires m.img.None? && m.video.None?
    ensures FromNode(m) == FromData(SlideData(m.dataType, m.dataSrc, m.dataPoster))
  {
  }

  /** A node's type is "video" exactly when `data-type` says so, or when it is unset and the node holds a video. */
  lemma NodeKind(m: Markup)
    ensures FromNode(m).kind == Video <==>
      (Truthy(m.dataType) && m.dataType.value == Video) || (!Truthy(m.dataType) && m.video.Some?)
    ensures Truthy(m.dataType) ==> FromNode(m).kind == m.dataType.value
    ensures !Truthy(m.dataType) ==> FromNode(m).kind == (if m.video.Some? then Video else Image)
    ensures FromNode(m).kind != ""
  {
  }

  /**
   * A node's src is its `data-src`, else its image's src, else ""; its
   * poster is its `data-poster`, else its video's poster, else "". An empty
   * attribute counts as unset.
   */
  lemma NodeSources(m: Markup)
    ensures FromNode(m).src ==
      if Truthy(m.dataSrc) then m.dataSrc.value else if Truthy(m.img) then m.img.value else ""
    ensures FromNode(m).poster ==
      if Truthy(m.dataPoster) then m.dataPoster.value else if Truthy(m.video) then m.video.value else ""
  {
  }

  /**
   * Reading back a rendered node recovers an image slide's src and a video
   * slide's poster, but not a video slide's src (the rendered video keeps
   * it on the video element, which node normalisation does not consult), and
   * any type other than "video" comes back as "image".
   */
  lemma RenderedRoundTrip(s: Slide)
    ensures FromNode(Rendered(s)) ==
      if s.kind == Video then Slide(Video, "", s.poster) else Slide(Image, s.src, "")
  {
  }
}
