/** `CursorIcon` and its `frames` operation in src/lib.rs. The xcursor decoder, the SVG
    rasteriser and the metadata parser are outside the model: their results are arguments. */
module CursorIcons {
  import opened Wrappers
  import opened Paths

  /** An icon is a path, to an xcursor file or to a directory of SVG frames. */
  datatype CursorIcon = Svg(path: Path) | X(path: Path)

  /** A frame, as the xcursor decoder delivers it and as `frames` returns it
      (`Image::from_xcursor` copies it field for field). */
  datatype Image = Image(size: nat, width: nat, height: nat, xhot: nat, yhot: nat, delay: nat,
                         pixels: seq<bv8>)

  /** One record of an SVG icon's `metadata.json` (its `f32` fields are not modelled). */
  datatype Meta = Meta(filename: string, delay: nat)

  /** `u32::abs_diff`. */
  function AbsDiff(a: nat, b: nat): nat { if a >= b then a - b else b - a }

  /** `min_by_key(|img| abs_diff(img.size, size))`: the index of the first image whose size
      is nearest the requested one. */
  function NearestIndex(images: seq<Image>, size: nat): (k: nat)
    requires images != []
    ensures k < |images|
    ensures forall j :: 0 <= j < |images| ==> AbsDiff(images[k].size, size) <= AbsDiff(images[j].size, size)
    ensures forall j :: 0 <= j < k ==> AbsDiff(images[j].size, size) > AbsDiff(images[k].size, size)
  {
    if |images| == 1 then 0
    else
      var k := 1 + NearestIndex(images[1..], size);
      if AbsDiff(images[0].size, size) <= AbsDiff(images[k].size, size) then 0 else k
  }

  /** `filter(|img| img.size == s)`: the images of size `s`, in order. */
  function WithSize(images: seq<Image>, s: nat): (r: seq<Image>)
    ensures |r| <= |images|
    ensures forall i :: 0 <= i < |r| ==> r[i].size == s
    ensures forall i :: 0 <= i < |images| && images[i].size == s ==> images[i] in r
  {
    if images == [] then []
    else if images[0].size == s then [images[0]] + WithSize(images[1..], s)
    else WithSize(images[1..], s)
  }

  /** `WithSize` keeps order: filtering a concatenation concatenates the filtered parts. */
  lemma {:induction false} WithSizeConcat(a: seq<Image>, b: seq<Image>, s: nat)
    ensures WithSize(a + b, s) == WithSize(a, s) + WithSize(b, s)
  {
    if a != [] {
      assert (a + b)[1..] == a[1..] + b;
      WithSizeConcat(a[1..], b, s);
    } else {
      assert a + b == b;
    }
  }

  /** `WithSize` keeps every image of size `s` as often as it occurs, and no other. */
  lemma {:induction false} WithSizeCounts(images: seq<Image>, s: nat, x: Image)
    ensures multiset(WithSize(images, s))[x] == if x.size == s then multiset(images)[x] else 0
  {
    if images != [] {
      WithSizeCounts(images[1..], s, x);
      assert images == [images[0]] + images[1..];
    }
  }

  /** The X branch of `frames`: no frames when the file cannot be read or decoded or holds
      no images; otherwise the images whose size is that of the nearest image. */
  function XFrames(decoded: Option<seq<Image>>, size: nat): (r: Option<seq<Image>>)
    ensures r.None? <==> decoded.None? || decoded.value == []
    ensures r.Some? ==> r.value != []
  {
    match decoded
    case None => None
    case Some(images) =>
      if images == [] then None
      else
        var nearest := images[NearestIndex(images, size)];
        Some(WithSize(images, nearest.size))
  }

  /** The frames of an X icon all have the size nearest the requested one, which is the
      size of the first image at the least distance; every image of that size is returned,
      in decoder order and with its multiplicity. */
  lemma XFramesNearest(images: seq<Image>, size: nat)
    requires images != []
    ensures var r := XFrames(Some(images), size).value;
      var k := NearestIndex(images, size);
      && r == WithSize(images, images[k].size)
      && (forall i :: 0 <= i < |r| ==> r[i].size == images[k].size)
      && (forall i, j :: 0 <= i < |r| && 0 <= j < |images| ==>
            AbsDiff(r[i].size, size) <= AbsDiff(images[j].size, size))
      && (forall j :: 0 <= j < k ==> AbsDiff(images[j].size, size) > AbsDiff(images[k].size, size))
      && (forall x :: multiset(r)[x] == if x.size == images[k].size then multiset(images)[x] else 0)
  {
    var k := NearestIndex(images, size);
    forall x ensures multiset(WithSize(images, images[k].size))[x]
                     == if x.size == images[k].size then multiset(images)[x] else 0 {
      WithSizeCounts(images, images[k].size, x);
    }
  }

  function Sized(s: nat): Image { Image(s, s, s, 0, 0, 0, []) }

  /** Embedded sizes 24, 32 and 48: a request for 30 gives the 32 frames. */
  lemma ExampleNearestSize()
    ensures XFrames(Some([Sized(24), Sized(32), Sized(48)]), 30) == Some([Sized(32)])
  {
    var images := [Sized(24), Sized(32), Sized(48)];
    assert images[1..] == [Sized(32), Sized(48)] && images[2..] == [Sized(48)];
    assert NearestIndex(images, 30) == 1;
    assert WithSize(images[2..], 32) == [];
    assert WithSize(images[1..], 32) == [Sized(32)];
  }

  /** ... and a request for an embedded size gives exactly that size. */
  lemma ExampleExactSize()
    ensures XFrames(Some([Sized(24), Sized(32), Sized(48)]), 48) == Some([Sized(48)])
  {
    var images := [Sized(24), Sized(32), Sized(48)];
    assert images[1..] == [Sized(32), Sized(48)] && images[2..] == [Sized(48)];
    assert NearestIndex(images, 48) == 2;
    assert WithSize(images[2..], 48) == [Sized(48)];
    assert WithSize(images[1..], 48) == [Sized(48)];
  }

  /** At equal distance the earlier image wins: 24 and 32 are both 4 away from 28. */
  lemma ExampleTieGoesToFirst()
    ensures XFrames(Some([Sized(32), Sized(24)]), 28) == Some([Sized(32)])
    ensures XFrames(Some([Sized(24), Sized(32)]), 28) == Some([Sized(24)])
  {
    var a, b := [Sized(32), Sized(24)], [Sized(24), Sized(32)];
    assert a[1..] == [Sized(24)] && b[1..] == [Sized(32)];
    assert NearestIndex(a, 28) == 0;
    assert NearestIndex(b, 28) == 0;
    assert WithSize(a[1..], 32) == [] && WithSize(b[1..], 24) == [];
    assert WithSize(a, 32) == [Sized(32)] && WithSize(b, 24) == [Sized(24)];
  }

  /** The SVG branch of `frames`: no frames when `metadata.json` cannot be read or parsed or
      lists no frames; otherwise one rendered image per record, in order. `render` stands for
      `Image::render_svg(path, size, meta)`. */
  function SvgFrames(path: Path, size: nat, metadata: Option<seq<Meta>>,
                     render: (Path, nat, Meta) -> Image): (r: Option<seq<Image>>)
    ensures r.None? <==> metadata.None? || metadata.value == []
    ensures r.Some? ==> |r.value| == |metadata.value|
    ensures r.Some? ==> forall i :: 0 <= i < |r.value| ==> r.value[i] == render(path, size, metadata.value[i])
  {
    match metadata
    case None => None
    case Some(metas) =>
      if metas == [] then None
      else Some(seq(|metas|, i requires 0 <= i < |metas| => render(path, size, metas[i])))
  }

  /** `CursorIcon::frames`: what the icon's own source yields. `metadata` is what the
      metadata file of an SVG icon parses to, `decoded` what the decoder makes of an X
      icon's file. An empty result is never returned: it is `None`. An X icon yields the
      frames of the nearest size (`XFramesNearest`), an SVG icon one rendered image per
      metadata record (`SvgFrames`). */
  function Frames(icon: CursorIcon, size: nat, metadata: Option<seq<Meta>>,
                  decoded: Option<seq<Image>>, render: (Path, nat, Meta) -> Image): (r: Option<seq<Image>>)
    ensures r.Some? ==> r.value != []
    ensures icon.Svg? ==> (r.None? <==> metadata.None? || metadata.value == [])
    ensures icon.X? ==> (r.None? <==> decoded.None? || decoded.value == [])
    ensures icon.X? ==> r == XFrames(decoded, size)
    ensures icon.Svg? ==> r == SvgFrames(icon.path, size, metadata, render)
  {
    match icon
    case Svg(path) => SvgFrames(path, size, metadata, render)
    case X(_) => XFrames(decoded, size)
  }
}
