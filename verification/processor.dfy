/** The QuadView processor: splits each camera frame into up to four
    half-size quadrant images and expands the dataset's channel names. */
module Processor {
  import opened Quadrants
  import opened Grid

  /** Name of the channel axis in an image's coordinates. */
  const ChannelAxis: string := "channel"

  /** An image as the processor sees it: the pixel grid with its declared
      size, the pass-through descriptors, axis coordinates and opaque
      per-image metadata M. */
  datatype Image<P, M> = Image(
    pixels: seq<seq<P>>,
    width: nat,
    height: nat,
    bytesPerPixel: nat,
    numComponents: nat,
    coords: map<string, nat>,
    metadata: M)

  /** The pixel grid has the declared width and height. */
  ghost predicate WellFormed<P, M>(img: Image<P, M>) {
    IsRect(img.pixels, img.width, img.height)
  }

  /** The region of interest cropped for quadrant q of a w x h frame. The
      steps and the crop size are both the truncated halves of the frame
      size, so an odd last row or column is never cropped. */
  function Roi(q: Quadrant, w: nat, h: nat): (r: Rect)
    ensures r.width == w / 2 && r.height == h / 2
    ensures Within(r, w, h)
  {
    var xStep, yStep := w / 2, h / 2;
    var width, height := w / 2, h / 2;
    match q
    case Blue => Rect(0, 0, width, height)
    case Green => Rect(0, yStep, width, height)
    case Red => Rect(xStep, 0, width, height)
    case FarRed => Rect(xStep, yStep, width, height)
  }

  /** The output image for quadrant q, placed at channel index k. */
  function Output<P, M>(img: Image<P, M>, q: Quadrant, k: nat): (o: Image<P, M>)
    requires WellFormed(img)
    ensures WellFormed(o)
    ensures o.width == img.width / 2 && o.height == img.height / 2
    ensures forall i, j :: 0 <= i < o.height && 0 <= j < o.width ==>
              o.pixels[i][j] == img.pixels[Roi(q, img.width, img.height).y + i][Roi(q, img.width, img.height).x + j]
    ensures o.bytesPerPixel == img.bytesPerPixel && o.numComponents == img.numComponents
    ensures o.metadata == img.metadata
    ensures ChannelAxis in o.coords && o.coords[ChannelAxis] == k
    ensures forall a :: a != ChannelAxis ==> (a in o.coords <==> a in img.coords)
    ensures forall a :: a != ChannelAxis && a in o.coords ==> o.coords[a] == img.coords[a]
  {
    var roi := Roi(q, img.width, img.height);
    Image(Crop(img.pixels, img.width, img.height, roi), roi.width, roi.height,
          img.bytesPerPixel, img.numComponents, img.coords[ChannelAxis := k], img.metadata)
  }

  /** Visits qs in order; every kept quadrant is emitted at channel index
      counter, and the counter then advances. Discarded quadrants emit
      nothing and leave the counter alone. */
  function Emit<P, M>(img: Image<P, M>, sel: Selection, qs: seq<Quadrant>, counter: nat): (out: seq<Image<P, M>>)
    requires WellFormed(img)
    ensures |out| == |KeptAmong(sel, qs)|
    ensures forall i :: 0 <= i < |out| ==> out[i] == Output(img, KeptAmong(sel, qs)[i], counter + i)
    decreases |qs|
  {
    if qs == [] then []
    else if Keeps(sel, qs[0]) then [Output(img, qs[0], counter)] + Emit(img, sel, qs[1..], counter + 1)
    else Emit(img, sel, qs[1..], counter)
  }

  /** One camera frame in, one image per kept quadrant out, in the fixed
      order Blue, Green, Red, FarRed, with channel indices 0, 1, 2, ... */
  function ProcessImage<P, M>(img: Image<P, M>, sel: Selection): (out: seq<Image<P, M>>)
    requires WellFormed(img)
    ensures |out| == KeptCount(sel)
    ensures forall i :: 0 <= i < |out| ==> out[i] == Output(img, Kept(sel)[i], i)
    ensures forall i :: 0 <= i < |out| ==>
              && WellFormed(out[i])
              && out[i].width == img.width / 2 && out[i].height == img.height / 2
              && ChannelAxis in out[i].coords && out[i].coords[ChannelAxis] == i
  {
    Emit(img, sel, Order, 0)
  }

  /** In processing order, the quadrants walk the left column top to bottom
      and then the right column: the i-th quadrant sits at column i / 2 and
      row i % 2 of the 2 x 2 layout. */
  lemma OrderIsColumnMajor(w: nat, h: nat)
    ensures forall i :: 0 <= i < |Order| ==>
              Roi(Order[i], w, h) == Rect((i / 2) * (w / 2), (i % 2) * (h / 2), w / 2, h / 2)
  {
  }

  /** The four crop rectangles never share a pixel. */
  lemma RoisDisjoint(p: Quadrant, q: Quadrant, w: nat, h: nat)
    requires p != q
    ensures Disjoint(Roi(p, w, h), Roi(q, w, h))
  {
  }

  /** The four crops tile the frame truncated to even size: Blue beside Red
      on top, Green beside FarRed below. No pixel of the even part is lost
      or repeated; only an odd last row or column is dropped. */
  lemma QuadrantsTile<T>(g: seq<seq<T>>, w: nat, h: nat)
    requires IsRect(g, w, h)
    ensures Beside(Crop(g, w, h, Roi(Blue, w, h)), Crop(g, w, h, Roi(Red, w, h)))
          + Beside(Crop(g, w, h, Roi(Green, w, h)), Crop(g, w, h, Roi(FarRed, w, h)))
         == Crop(g, w, h, Rect(0, 0, 2 * (w / 2), 2 * (h / 2)))
  {
    var hw, hh := w / 2, h / 2;
    var top := Beside(Crop(g, w, h, Roi(Blue, w, h)), Crop(g, w, h, Roi(Red, w, h)));
    var bottom := Beside(Crop(g, w, h, Roi(Green, w, h)), Crop(g, w, h, Roi(FarRed, w, h)));
    var whole := Crop(g, w, h, Rect(0, 0, 2 * hw, 2 * hh));
    var tiled := top + bottom;
    assert |tiled| == |whole|;
    forall i | 0 <= i < 2 * hh ensures tiled[i] == whole[i] {
      if i < hh {
        assert tiled[i] == top[i];
        forall j | 0 <= j < 2 * hw ensures tiled[i][j] == g[i][j] {
        }
      } else {
        assert tiled[i] == bottom[i - hh];
        forall j | 0 <= j < 2 * hw ensures tiled[i][j] == g[i][j] {
        }
      }
      assert |tiled[i]| == |whole[i]|;
    }
  }

  /** For an even-sized frame the four crops reassemble it exactly. */
  lemma QuadrantsTileEvenFrame<T>(g: seq<seq<T>>, w: nat, h: nat)
    requires IsRect(g, w, h) && w % 2 == 0 && h % 2 == 0
    ensures Beside(Crop(g, w, h, Roi(Blue, w, h)), Crop(g, w, h, Roi(Red, w, h)))
          + Beside(Crop(g, w, h, Roi(Green, w, h)), Crop(g, w, h, Roi(FarRed, w, h)))
         == g
  {
    QuadrantsTile(g, w, h);
    CropWhole(g, w, h);
  }

  /** Total pixel count of a sequence of images. */
  function TotalArea<P, M>(images: seq<Image<P, M>>): nat {
    if images == [] then 0 else images[0].width * images[0].height + TotalArea(images[1..])
  }

  lemma {:induction false} TotalAreaOfEqualSizes<P, M>(images: seq<Image<P, M>>, w: nat, h: nat)
    requires forall i :: 0 <= i < |images| ==> images[i].width == w && images[i].height == h
    ensures TotalArea(images) == |images| * (w * h)
  {
    if images != [] {
      TotalAreaOfEqualSizes(images[1..], w, h);
      assert |images| * (w * h) == (w * h) + (|images| - 1) * (w * h);
    }
  }

  /** The emitted images hold exactly kept-count quarter frames of pixels. */
  lemma ProcessImageArea<P, M>(img: Image<P, M>, sel: Selection)
    requires WellFormed(img)
    ensures TotalArea(ProcessImage(img, sel)) == KeptCount(sel) * ((img.width / 2) * (img.height / 2))
  {
    TotalAreaOfEqualSizes(ProcessImage(img, sel), img.width / 2, img.height / 2);
  }

  /** With only Green and Red kept, the bottom-left crop becomes channel 0
      and the top-right crop channel 1. */
  lemma GreenAndRedOnly<P, M>(img: Image<P, M>)
    requires WellFormed(img)
    ensures var out := ProcessImage(img, Selection(false, true, true, false));
            |out| == 2 && out[0] == Output(img, Green, 0) && out[1] == Output(img, Red, 1)
  {
  }

  datatype Option<T> = None | Some(value: T)

  /** Dataset summary metadata: the channel-name list (None when the
      summary declares none) and every other summary field, opaque as R. */
  datatype Summary<R> = Summary(channelNames: Option<seq<string>>, other: R)

  /** Suffixes appended to each base channel name, indexed like Order. */
  const ChannelSuffixes: seq<string> := ["Blue", "Green", "Red", "FarRed"]

  /** Every base name followed by its four suffixed variants. */
  function ExpandedNames(names: seq<string>): (r: seq<string>)
    ensures |r| == 4 * |names|
    ensures forall k :: 0 <= k < |r| ==> r[k] == names[k / 4] + ChannelSuffixes[k % 4]
  {
    if names == [] then []
    else
      var block := seq(4, j requires 0 <= j < 4 => names[0] + ChannelSuffixes[j]);
      var rest := ExpandedNames(names[1..]);
      var r := block + rest;
      assert forall k :: 0 <= k < |r| ==> r[k] == names[k / 4] + ChannelSuffixes[k % 4] by {
        forall k | 0 <= k < |r| ensures r[k] == names[k / 4] + ChannelSuffixes[k % 4] {
          if k < 4 {
            assert k / 4 == 0 && k % 4 == k;
          } else {
            assert r[k] == rest[k - 4];
            assert (k - 4) / 4 == k / 4 - 1 && (k - 4) % 4 == k % 4;
            assert names[1..][(k - 4) / 4] == names[k / 4];
          }
        }
      }
      r
  }

  /** The nested loop filling an array of 4 * n names at index i * 4 + j. */
  method ExpandNames(names: seq<string>) returns (r: seq<string>)
    ensures |r| == 4 * |names|
    ensures r == ExpandedNames(names)
  {
    var newNames := new string[|names| * 4];
    for i := 0 to |names|
      invariant forall k :: 0 <= k < i * 4 ==> newNames[k] == names[k / 4] + ChannelSuffixes[k % 4]
    {
      for j := 0 to 4
        invariant forall k :: 0 <= k < i * 4 + j ==> newNames[k] == names[k / 4] + ChannelSuffixes[k % 4]
      {
        newNames[i * 4 + j] := names[i] + ChannelSuffixes[j];
      }
    }
    r := newNames[..];
  }

  /** Entry i * 4 + j of the expansion is base name i with suffix j. */
  lemma ExpandedNameAt(names: seq<string>, i: nat, j: nat)
    requires i < |names| && j < 4
    ensures i * 4 + j < |ExpandedNames(names)|
    ensures ExpandedNames(names)[i * 4 + j] == names[i] + ChannelSuffixes[j]
  {
    assert (i * 4 + j) / 4 == i && (i * 4 + j) % 4 == j;
  }

  /** The summary with its channel names expanded fourfold; the keep flags
      play no part. A summary without channel names comes back unchanged. */
  function ProcessSummaryMetadata<R>(sel: Selection, summary: Summary<R>): (r: Summary<R>)
    ensures summary.channelNames == None || summary.channelNames == Some([]) ==> r == summary
    ensures summary.channelNames.Some? && summary.channelNames.value != [] ==>
              && r.other == summary.other
              && r.channelNames.Some?
              && |r.channelNames.value| == 4 * |summary.channelNames.value|
              && forall i, j :: 0 <= i < |summary.channelNames.value| && 0 <= j < 4 ==>
                   r.channelNames.value[i * 4 + j] == summary.channelNames.value[i] + ChannelSuffixes[j]
  {
    match summary.channelNames
    case None => summary
    case Some(names) =>
      if names == [] then summary
      else
        var expanded := ExpandedNames(names);
        assert forall i, j :: 0 <= i < |names| && 0 <= j < 4 ==> expanded[i * 4 + j] == names[i] + ChannelSuffixes[j] by {
          forall i, j | 0 <= i < |names| && 0 <= j < 4 ensures expanded[i * 4 + j] == names[i] + ChannelSuffixes[j] {
            ExpandedNameAt(names, i, j);
          }
        }
        summary.(channelNames := Some(expanded))
  }

  /** Recovers the base names from an expanded list: the first name of each
      block of four with its four-letter "Blue" suffix removed. */
  function BaseNames(expanded: seq<string>): seq<string> {
    seq(|expanded| / 4, i requires 0 <= i < |expanded| / 4 =>
      var s := expanded[i * 4]; if |s| < 4 then s else s[.. |s| - 4])
  }

  /** The expansion loses nothing: the base names can be read back. */
  lemma BaseNamesUndoExpansion(names: seq<string>)
    ensures BaseNames(ExpandedNames(names)) == names
  {
    var r := ExpandedNames(names);
    var b := BaseNames(r);
    assert |b| == |names|;
    forall i | 0 <= i < |names| ensures b[i] == names[i] {
      assert (i * 4) / 4 == i && (i * 4) % 4 == 0;
      assert r[i * 4] == names[i] + "Blue";
      assert (names[i] + "Blue")[.. |names[i]|] == names[i];
    }
  }

  /** Different suffixes give different names for the same base. */
  lemma SuffixesDistinguish(base: string, a: nat, b: nat)
    requires a < 4 && b < 4
    ensures base + ChannelSuffixes[a] == base + ChannelSuffixes[b] ==> a == b
  {
  }

  /** Name of channel k when the dataset has one base channel. The names
      are positional (Blue, Green, Red, FarRed), but the crop placed at
      channel k is the k-th kept quadrant, so the two agree exactly when
      that quadrant is the k-th quadrant of Order. */
  lemma ChannelNameMatchesCropIff<R>(sel: Selection, base: string, other: R, k: nat)
    requires k < KeptCount(sel)
    ensures var names := ProcessSummaryMetadata(sel, Summary(Some([base]), other)).channelNames.value;
            names[k] == base + ChannelSuffixes[Position(Kept(sel)[k])] <==> Kept(sel)[k] == Order[k]
  {
    var q := Kept(sel)[k];
    var names := ProcessSummaryMetadata(sel, Summary(Some([base]), other)).channelNames.value;
    assert k < 4 && 0 * 4 + k == k;
    assert names[k] == base + ChannelSuffixes[k];
    SuffixesDistinguish(base, k, Position(q));
    assert Order[k] == q <==> Position(q) == k;
  }

  /** With only Green and Red kept, channel 0 holds the bottom-left (green)
      crop but is named with the "Blue" suffix. */
  lemma GreenCropNamedBlue<P, M, R>(img: Image<P, M>, base: string, other: R)
    requires WellFormed(img)
    ensures var sel := Selection(false, true, true, false);
            && ProcessImage(img, sel)[0] == Output(img, Green, 0)
            && ProcessSummaryMetadata(sel, Summary(Some([base]), other)).channelNames.value[0] == base + "Blue"
  {
  }
}
