/**
 * The JPEG 2000 codec adapter: the codec value and its configuration, the validation of
 * the array to encode, the choice between a grey plane, a colour image and a stack of
 * tiles, and the encoder up to the point where the buffer, the parameter record and the
 * image record are handed to OpenJPEG.
 */
module Jpeg2000 {
  import opened Wrappers
  import opened Errors
  import opened NdArrays
  import opened CodecFormats
  import opened Parameters
  import opened Images

  // ---------------------------------------------------------------------------------------
  // The codec and its configuration

  /** The name under which the codec is registered. */
  const CODEC_ID: string := "jpeg2000"

  /** A codec: a PSNR target in dB and an N-fold compression rate; 0 means unset. */
  datatype Codec = Jpeg2000(snr: real, rate: real)

  /** At most one knob is set, and neither is negative. */
  predicate ValidCodec(c: Codec)
  {
    !(c.snr > 0.0 && c.rate > 0.0) && c.snr >= 0.0 && c.rate >= 0.0
  }

  /**
   * The constructor: refuses both knobs set, then a negative snr, then a negative rate;
   * otherwise keeps both values as given.
   */
  function NewCodec(snr: real, rate: real): (r: Result<Codec, Error>)
    ensures r.Success? <==> ValidCodec(Jpeg2000(snr, rate))
    ensures r.Success? ==> r.value.snr == snr && r.value.rate == rate
    ensures snr > 0.0 && rate > 0.0 ==> r == Failure(SnrAndRateBoth)
    ensures !(snr > 0.0 && rate > 0.0) && snr < 0.0 ==> r == Failure(NegativeSnr)
    ensures !(snr > 0.0 && rate > 0.0) && snr >= 0.0 && rate < 0.0 ==> r == Failure(NegativeRate)
    ensures r.Failure? ==> Kind(r.error) == ValueError
  {
    if snr > 0.0 && rate > 0.0 then Failure(SnrAndRateBoth)
    else if snr < 0.0 then Failure(NegativeSnr)
    else if rate < 0.0 then Failure(NegativeRate)
    else Success(Jpeg2000(snr, rate))
  }

  /** The default codec, `JPEG2000()`, is the lossless one. */
  lemma DefaultCodecIsLossless()
    ensures NewCodec(0.0, 0.0) == Success(Jpeg2000(0.0, 0.0))
    ensures Lossless(EncodeLayering(0.0, 0.0))
  {
  }

  /** For a codec that could be constructed, encoding is lossless exactly when both knobs are 0. */
  lemma LosslessIffNoKnob(c: Codec)
    requires ValidCodec(c)
    ensures Lossless(EncodeLayering(c.snr, c.rate)) <==> c.snr == 0.0 && c.rate == 0.0
  {
  }

  /** A value in a configuration mapping: the codec id, or a number. */
  datatype ConfigValue = Str(s: string) | Num(x: real)

  type Config = map<string, ConfigValue>

  /** The configuration of a codec: its id, its snr and its rate. */
  function GetConfig(c: Codec): (cfg: Config)
    ensures cfg.Keys == {"id", "snr", "rate"}
    ensures cfg["id"] == Str(CODEC_ID)
    ensures cfg["snr"] == Num(c.snr) && cfg["rate"] == Num(c.rate)
  {
    map["id" := Str(CODEC_ID), "snr" := Num(c.snr), "rate" := Num(c.rate)]
  }

  /**
   * A codec from a configuration. "snr" is looked up before "rate", and the id is not
   * looked at. A value that is not a number fails the constructor's first comparison that
   * reaches it, which a negative snr can precede.
   */
  function FromConfig(cfg: Config): (r: Result<Codec, Error>)
    ensures "snr" !in cfg ==> r == Failure(MissingKey("snr"))
    ensures "snr" in cfg && "rate" !in cfg ==> r == Failure(MissingKey("rate"))
    ensures r.Success? ==> ValidCodec(r.value)
    ensures r.Success? ==> cfg["snr"] == Num(r.value.snr) && cfg["rate"] == Num(r.value.rate)
    ensures "snr" in cfg && "rate" in cfg && cfg["snr"].Num? && cfg["rate"].Num? ==>
              r == NewCodec(cfg["snr"].x, cfg["rate"].x)
    ensures "snr" in cfg && "rate" in cfg && cfg["snr"].Str? ==> r == Failure(NotComparable)
    ensures "snr" in cfg && "rate" in cfg && cfg["snr"].Num? && cfg["rate"].Str? ==>
              r == Failure(if cfg["snr"].x < 0.0 then NegativeSnr else NotComparable)
    ensures r.Failure? ==> Kind(r.error) in {KeyError, TypeError, ValueError}
  {
    if "snr" !in cfg then Failure(MissingKey("snr"))
    else if "rate" !in cfg then Failure(MissingKey("rate"))
    else
      match (cfg["snr"], cfg["rate"])
      case (Num(snr), Num(rate)) => NewCodec(snr, rate)
      case (Str(_), _) => Failure(NotComparable)
      case (Num(snr), Str(_)) => if snr < 0.0 then Failure(NegativeSnr) else Failure(NotComparable)
  }

  /** A codec survives the trip through its configuration. */
  lemma ConfigRoundTrip(c: Codec)
    requires ValidCodec(c)
    ensures FromConfig(GetConfig(c)) == Success(c)
  {
  }

  /** A configuration with just the codec's keys is the configuration of the codec it builds. */
  lemma ConfigRoundTripFromConfig(cfg: Config)
    requires cfg.Keys == {"id", "snr", "rate"} && cfg["id"] == Str(CODEC_ID)
    requires FromConfig(cfg).Success?
    ensures GetConfig(FromConfig(cfg).value) == cfg
  {
    var c := FromConfig(cfg).value;
    assert forall k :: k in cfg ==> GetConfig(c)[k] == cfg[k];
  }

  // ---------------------------------------------------------------------------------------
  // Input validation, shape dispatch and reshaping

  /**
   * Why `encode` refuses an array, checked in this order: memory that is not C-contiguous,
   * a dtype kind other than signed or unsigned integer, items wider than 32 bits.
   */
  function InputError(a: NdArray): (e: Option<Error>)
    ensures e.None? <==> a.cContiguous && a.dtype.kind in "iu" && a.dtype.itemsize <= 4
    ensures !a.cContiguous ==> e == Some(NotContiguous)
    ensures a.cContiguous && a.dtype.kind !in "iu" ==> e == Some(NotInteger)
    ensures a.cContiguous && a.dtype.kind in "iu" && a.dtype.itemsize > 4 ==> e == Some(ItemTooWide)
    ensures e.Some? ==> Kind(e.value) == TypeError
  {
    if !a.cContiguous then Some(NotContiguous)
    else if a.dtype.kind !in "iu" then Some(NotInteger)
    else if a.dtype.itemsize > 4 then Some(ItemTooWide)
    else None
  }

  /** The three ways `encode` lays an array out as a JPEG 2000 image. */
  datatype TilingPolicy =
    | TwoD          // one grey plane
    | MultiChannel  // height x width x 3 or 4 channels: an RGB(A) image
    | NDTiled       // everything else: a tall grey raster of stacked tiles

  /** The branch `encode` takes for an array of this shape. */
  function Policy(shape: seq<nat>): (p: TilingPolicy)
    ensures p == TwoD <==> |shape| == 2
    ensures p == MultiChannel <==> |shape| == 3 && shape[2] in {3, 4}
  {
    if |shape| == 2 then TwoD
    else if |shape| == 3 && shape[2] in {3, 4} then MultiChannel
    else NDTiled
  }

  /**
   * numpy's `reshape(-1, cols)` of an array of the given shape: the unknown dimension is
   * the element count divided by `cols`, and cannot be inferred when `cols` is 0 or does
   * not divide the element count.
   */
  function ReshapeRows(shape: seq<nat>, cols: nat): (r: Result<seq<nat>, Error>)
    ensures r.Success? <==> cols > 0 && Product(shape) % cols == 0
    ensures r.Success? ==> |r.value| == 2 && r.value[1] == cols && Product(r.value) == Product(shape)
  {
    if cols == 0 || Product(shape) % cols != 0 then Failure(ReshapeSizeMismatch)
    else
      var rows := Product(shape) / cols;
      Product2(rows, cols);
      Success([rows, cols])
  }

  /**
   * reshape_buf: a rank-1 array is refused, an array of rank above 2 has every dimension
   * but the last raveled into rows, and any other array keeps its shape. Only the shape
   * changes: the elements stay where they are, in the same row-major order.
   */
  function ReshapeBuf(shape: seq<nat>): (r: Result<seq<nat>, Error>)
    ensures |shape| == 1 ==> r == Failure(RankTooLow)
    ensures |shape| == 0 || |shape| == 2 ==> r == Success(shape)
    ensures |shape| > 2 ==> (r.Success? <==> shape[|shape| - 1] > 0)
    ensures |shape| > 2 && r.Success? ==>
              r.value == [Product(shape[..|shape| - 1]), shape[|shape| - 1]]
    ensures r.Success? ==> Product(r.value) == Product(shape)
  {
    if |shape| == 1 then Failure(RankTooLow)
    else if |shape| > 2 then
      var cols := shape[|shape| - 1];
      ProductSnoc(shape);
      if cols > 0 then
        DivModUnique(Product(shape), Product(shape[..|shape| - 1]), 0, cols);
        ReshapeRows(shape, cols)
      else
        ReshapeRows(shape, cols)
    else Success(shape)
  }

  /**
   * The branch taken and the raster produced for the shapes of the codec's tests, (30, 40),
   * (41, 29), (21, 22, 23) and (255,), and for three further example shapes, (64, 64, 3),
   * (21, 32, 32) and (5, 21, 32, 32). The rank-1 shape lands in the tiling branch, which
   * gives up on `shape[-2]` before any reshape.
   */
  lemma DispatchExamples()
    ensures Policy([30, 40]) == TwoD && Policy([41, 29]) == TwoD
    ensures Policy([21, 22, 23]) == NDTiled && ReshapeBuf([21, 22, 23]) == Success([462, 23])
    ensures Policy([255]) == NDTiled && |[255]| < 2
    ensures Policy([64, 64, 3]) == MultiChannel
    ensures Policy([21, 32, 32]) == NDTiled && ReshapeBuf([21, 32, 32]) == Success([672, 32])
    ensures Policy([5, 21, 32, 32]) == NDTiled && ReshapeBuf([5, 21, 32, 32]) == Success([3360, 32])
  {
    assert [21, 32, 32][..2] == [21, 32];
    assert [21, 22, 23][..2] == [21, 22];
    assert [5, 21, 32, 32][..3] == [5, 21, 32];
    Product2(21, 32);
    Product2(21, 22);
    Product3(5, 21, 32);
  }

  // ---------------------------------------------------------------------------------------
  // The colour transpose

  /**
   * For flat index k of a channel-major buffer of c planes of `plane` pixels each, the flat
   * index of the same element in the pixel-major buffer, where the c channel values of each
   * pixel are adjacent: pixel k % plane, channel k / plane.
   */
  function SourceIndex(k: nat, plane: nat, c: nat): (s: nat)
    requires k < plane * c
    ensures s < plane * c
    ensures s / c == k % plane && s % c == k / plane
  {
    var ch, p := k / plane, k % plane;
    assert ch < c by {
      assert ch * plane <= k < c * plane;
      MulStrict(ch, c, plane);
    }
    MulBound(p, c, ch, plane);
    DivModUnique(p * c + ch, p, ch, c);
    p * c + ch
  }

  /**
   * Transposing back undoes the transpose: the index map of the (plane, c) transpose is
   * inverted by that of the (c, plane) transpose, so it is a bijection and every element of
   * the source lands at exactly one place.
   */
  lemma SourceIndexInverse(k: nat, plane: nat, c: nat)
    requires k < plane * c
    ensures SourceIndex(SourceIndex(k, plane, c), c, plane) == k
  {
  }

  /** In coordinates: channel-major element (ch, i, j) is pixel-major element (i, j, ch). */
  lemma SourceIndexAt(ch: nat, i: nat, j: nat, h: nat, w: nat, c: nat)
    requires ch < c && i < h && j < w
    ensures RowMajor3(ch, i, j, c, h, w) < h * w * c
    ensures SourceIndex(RowMajor3(ch, i, j, c, h, w), h * w, c) == RowMajor3(i, j, ch, h, w, c)
  {
    var k := RowMajor3(ch, i, j, c, h, w);
    var plane := h * w;
    MulAssoc(c, h, w);
    assert c * plane == plane * c;
    var s := SourceIndex(k, plane, c);
    var p := i * w + j;
    assert s / c == p && s % c == ch;
    assert s == p * c + ch;
    Distribute(i, w, j, c);
  }

  /** (i * w + j) * c == i * (w * c) + j * c */
  lemma Distribute(i: nat, w: nat, j: nat, c: nat)
    ensures (i * w + j) * c == i * (w * c) + j * c
  {
  }

  /**
   * `np.ascontiguousarray(buf.transpose(2, 0, 1))` for a buffer of shape (h, w, c): a new
   * buffer of shape (c, h, w) with `out[ch][i][j] == in[i][j][ch]`.
   */
  method ChannelMajor(src: array<int>, h: nat, w: nat, c: nat) returns (dst: array<int>)
    requires src.Length == h * w * c
    ensures fresh(dst) && dst.Length == src.Length
    ensures forall k :: 0 <= k < dst.Length ==> dst[k] == src[SourceIndex(k, h * w, c)]
    ensures forall ch, i, j :: 0 <= ch < c && 0 <= i < h && 0 <= j < w ==>
              RowMajor3(ch, i, j, c, h, w) < dst.Length
              && dst[RowMajor3(ch, i, j, c, h, w)] == src[RowMajor3(i, j, ch, h, w, c)]
  {
    var plane := h * w;
    dst := new int[src.Length];
    var k := 0;
    while k < dst.Length
      invariant 0 <= k <= dst.Length
      invariant forall k' :: 0 <= k' < k ==> dst[k'] == src[SourceIndex(k', plane, c)]
    {
      dst[k] := src[SourceIndex(k, plane, c)];
      k := k + 1;
    }
    forall ch, i, j | 0 <= ch < c && 0 <= i < h && 0 <= j < w
      ensures RowMajor3(ch, i, j, c, h, w) < dst.Length
              && dst[RowMajor3(ch, i, j, c, h, w)] == src[RowMajor3(i, j, ch, h, w, c)]
    {
      SourceIndexAt(ch, i, j, h, w, c);
    }
  }

  // ---------------------------------------------------------------------------------------
  // Encoding, up to the hand-off to OpenJPEG

  /**
   * What `encode` passes to the OpenJPEG engine: the element buffer (its bytes, in the
   * engine's terms) with the shape it now has, the parameter record, the image record and
   * the stream format to write.
   */
  datatype Handoff = Handoff(data: array<int>, shape: seq<nat>, params: CParameters,
                             image: CImage, format: CodecFormat)

  /**
   * What holds whichever branch `encode` took: a raw codestream is written, the layers
   * follow the codec's knobs, the fixed fields keep their defaults, the image starts at
   * the origin and lists its components, no element is lost or added, and every component
   * spans the whole image with the array's signedness and bit depth.
   */
  ghost predicate CommonHandoff(h: Handoff, codec: Codec, a: NdArray)
    reads h.params, h.image
  {
    && Described(h, h.params, a)
    && h.params.Quality() == EncodeLayering(codec.snr, codec.rate)
    && h.params.fixed == DefaultFixed()
  }

  /** A rank-2 array: the caller's buffer as it is, one grey component, no tiling. */
  ghost predicate GrayHandoff(h: Handoff, a: NdArray)
    reads h.params, h.image
  {
    && |a.shape| == 2
    && h.data == a.data && h.shape == a.shape
    && |h.image.cmptparms| == 1
    && h.image.x1 == h.params.cpTdx == a.shape[1]
    && h.image.y1 == h.params.cpTdy == a.shape[0]
    && !h.params.tileSizeOn && h.image.colorSpace == OPJ_CLRSPC_GRAY
  }

  /**
   * A (height, width, 3 or 4) array: the channel-major copy of the buffer, one component
   * per channel, tile and image extents equal, sRGB.
   */
  ghost predicate ColourHandoff(h: Handoff, a: NdArray)
    reads h.params, h.image, h.data, a.data
  {
    && |a.shape| == 3
    && var height, width, channels := a.shape[0], a.shape[1], a.shape[2];
    && h.shape == [channels, height, width]
    && h.data.Length == channels * height * width
    && a.data.Length == height * width * channels
    && (forall ch, i, j :: 0 <= ch < channels && 0 <= i < height && 0 <= j < width ==>
          h.data[RowMajor3(ch, i, j, channels, height, width)]
          == a.data[RowMajor3(i, j, ch, height, width, channels)])
    && |h.image.cmptparms| == channels
    && h.image.x1 == h.params.cpTdx == width
    && h.image.y1 == h.params.cpTdy == height
    && !h.params.tileSizeOn && h.image.colorSpace == OPJ_CLRSPC_SRGB
  }

  /**
   * Any other array of rank 3 or more: the caller's buffer seen as a (rows, last) raster,
   * tiles of the last two dimensions, so the image height is a whole number of tiles.
   */
  ghost predicate TiledHandoff(h: Handoff, a: NdArray)
    reads h.params, h.image
  {
    && |a.shape| >= 3
    && var n := |a.shape|;
    && h.data == a.data
    && h.shape == [Product(a.shape[..n - 1]), a.shape[n - 1]]
    && h.params.cpTdx == a.shape[n - 1] && h.params.cpTdy == a.shape[n - 2]
    && h.params.tileSizeOn
    && |h.image.cmptparms| == 1 && h.image.colorSpace == OPJ_CLRSPC_GRAY
    && h.image.x1 == h.params.cpTdx
    && h.image.y1 == Product(a.shape[..n - 1]) == Product(a.shape[..n - 2]) * h.params.cpTdy
  }

  /**
   * The image layout that the hand-off shares in every branch, given the parameter record
   * the branch filled in.
   */
  ghost predicate Described(h: Handoff, params: CParameters, a: NdArray)
    reads h.image, params
  {
    && h.params == params
    && h.format == OPJ_CODEC_J2K
    && h.image.Valid() && h.image.x0 == 0 && h.image.y0 == 0
    && h.data.Length == a.data.Length
    && AllDescribePlane(h.image.cmptparms, h.image.y1, h.image.x1, a.dtype)
  }

  /** The rank-2 branch of `encode`. */
  method DescribeGray(params: CParameters, a: NdArray) returns (h: Handoff)
    requires a.Valid() && |a.shape| == 2 && a.dtype.kind in "iu" && !params.tileSizeOn
    modifies params
    ensures fresh(h.image) && Described(h, params, a) && GrayHandoff(h, a)
    ensures params.Quality() == old(params.Quality()) && params.fixed == old(params.fixed)
  {
    var shape := a.shape;
    var comp := MakeComponent(shape, a.dtype);
    var image := GreyImage(comp.value, shape[0], shape[1], a.dtype);
    params.cpTdx, params.cpTdy := shape[1], shape[0];
    h := Handoff(a.data, shape, params, image, OPJ_CODEC_J2K);
  }

  /** The image record of the grey and tiling branches: one plane component over the raster. */
  method GreyImage(comp: ComptParm, height: nat, width: nat, dtype: DType) returns (image: CImage)
    requires DescribesPlane(comp, height, width, dtype)
    ensures fresh(image) && image.Valid() && image.x0 == 0 && image.y0 == 0
    ensures image.cmptparms == [comp]
    ensures image.x1 == width && image.y1 == height && image.colorSpace == OPJ_CLRSPC_GRAY
    ensures AllDescribePlane(image.cmptparms, image.y1, image.x1, dtype)
  {
    image := new CImage([comp]);
    image.x1, image.y1 := width, height;
  }

  /** The colour branch of `encode`: three or four channels become components. */
  method DescribeColour(params: CParameters, a: NdArray) returns (h: Handoff)
    requires a.Valid() && |a.shape| == 3 && a.shape[2] in {3, 4} && a.dtype.kind in "iu"
    requires !params.tileSizeOn
    modifies params
    ensures fresh(h.image) && fresh(h.data) && Described(h, params, a) && ColourHandoff(h, a)
    ensures params.Quality() == old(params.Quality()) && params.fixed == old(params.fixed)
  {
    var height, width, channels := a.shape[0], a.shape[1], a.shape[2];
    assert a.shape == [height, width, channels];
    Product3(height, width, channels);
    Product3(channels, height, width);
    var buf := ChannelMajor(a.data, height, width, channels);
    var comp := MakeComponent([height, width], a.dtype);
    var image := ColourImage(comp.value, channels, height, width, a.dtype);
    params.cpTdx, params.cpTdy := width, height;
    h := Handoff(buf, [channels, height, width], params, image, OPJ_CODEC_J2K);
  }

  /** The image record of the colour branch: `channels` copies of one plane component, sRGB. */
  method ColourImage(comp: ComptParm, channels: nat, height: nat, width: nat, dtype: DType)
    returns (image: CImage)
    requires DescribesPlane(comp, height, width, dtype)
    ensures fresh(image) && image.Valid() && image.x0 == 0 && image.y0 == 0
    ensures |image.cmptparms| == channels
    ensures image.x1 == width && image.y1 == height && image.colorSpace == OPJ_CLRSPC_SRGB
    ensures AllDescribePlane(image.cmptparms, image.y1, image.x1, dtype)
  {
    image := new CImage(seq(channels, _ => comp));
    image.x1, image.y1 := width, height;
    image.colorSpace := OPJ_CLRSPC_SRGB;
  }

  /**
   * The branch of `encode` for every other shape: the last two dimensions are the tile,
   * the buffer is reshaped to a raster of stacked tiles. Fails where `encode` does: on
   * `shape[-1]`, on `shape[-2]`, or in the reshape.
   */
  method DescribeTiled(params: CParameters, a: NdArray) returns (r: Result<Handoff, Error>)
    requires a.Valid() && Policy(a.shape) == NDTiled && a.dtype.kind in "iu"
    modifies params
    ensures |a.shape| < 2 ==> r == Failure(ShapeIndexOutOfRange)
    ensures |a.shape| >= 3 && a.shape[|a.shape| - 1] == 0 ==> r == Failure(ReshapeSizeMismatch)
    ensures r.Success? <==> |a.shape| >= 3 && a.shape[|a.shape| - 1] > 0
    ensures r.Success? ==> fresh(r.value.image) && Described(r.value, params, a)
    ensures r.Success? ==> TiledHandoff(r.value, a)
    ensures params.Quality() == old(params.Quality()) && params.fixed == old(params.fixed)
  {
    var shape := a.shape;
    var n := |shape|;
    if n < 2 {
      return Failure(ShapeIndexOutOfRange);
    }
    params.cpTdx := shape[n - 1];
    params.cpTdy := shape[n - 2];
    var reshaped := ReshapeBuf(shape);
    if reshaped.Failure? {
      return Failure(reshaped.error);
    }
    var rasterShape := reshaped.value;
    ProductSnoc2(shape);
    params.tileSizeOn := true;
    var comp := MakeComponent(rasterShape, a.dtype);
    var image := GreyImage(comp.value, rasterShape[0], rasterShape[1], a.dtype);
    r := Success(Handoff(a.data, rasterShape, params, image, OPJ_CODEC_J2K));
  }

  /**
   * The quality step of `encode`: a positive snr selects PSNR allocation with that single
   * layer, otherwise a positive rate selects rate allocation; with neither the lossless
   * defaults stay.
   */
  method ConfigureLayers(params: CParameters, codec: Codec)
    requires params.Quality() == DefaultLayering()
    modifies params
    ensures params.Quality() == EncodeLayering(codec.snr, codec.rate)
    ensures params.tileSizeOn == old(params.tileSizeOn) && params.fixed == old(params.fixed)
    ensures params.cpTdx == old(params.cpTdx) && params.cpTdy == old(params.cpTdy)
  {
    if codec.snr > 0.0 {
      var _ := params.SetPsnrs([codec.snr]);
    } else if codec.rate > 0.0 {
      var _ := params.SetRates([codec.rate]);
    }
  }

  /**
   * The part of `encode` after the quality setters: the dispatch on rank and shape, each
   * branch filling in the tiling fields of `params` and building the image record.
   */
  method Describe(params: CParameters, a: NdArray) returns (r: Result<Handoff, Error>)
    requires a.Valid() && a.dtype.kind in "iu" && !params.tileSizeOn
    modifies params
    ensures |a.shape| < 2 ==> r == Failure(ShapeIndexOutOfRange)
    ensures (|a.shape| >= 3 && Policy(a.shape) == NDTiled && a.shape[|a.shape| - 1] == 0)
            ==> r == Failure(ReshapeSizeMismatch)
    ensures r.Success? <==>
              |a.shape| >= 2 && !(Policy(a.shape) == NDTiled && a.shape[|a.shape| - 1] == 0)
    ensures r.Success? ==> fresh(r.value.image) && Described(r.value, params, a)
    ensures r.Success? && Policy(a.shape) == TwoD ==> GrayHandoff(r.value, a)
    ensures r.Success? && Policy(a.shape) == MultiChannel ==>
              fresh(r.value.data) && ColourHandoff(r.value, a)
    ensures r.Success? && Policy(a.shape) == NDTiled ==> TiledHandoff(r.value, a)
    ensures params.Quality() == old(params.Quality()) && params.fixed == old(params.fixed)
  {
    var shape := a.shape;
    if |shape| == 2 {
      var h := DescribeGray(params, a);
      r := Success(h);
    } else if |shape| == 3 && shape[2] in {3, 4} {
      var h := DescribeColour(params, a);
      r := Success(h);
    } else {
      r := DescribeTiled(params, a);
    }
  }

  /**
   * `JPEG2000.encode` up to the engine call. The input checks come first, before any
   * parameter or image record exists; an array of rank below 2 fails on `shape[-1]` or
   * `shape[-2]`, and a stack of tiles whose last dimension is 0 fails in numpy's reshape.
   */
  method Encode(codec: Codec, a: NdArray) returns (r: Result<Handoff, Error>)
    requires a.Valid()
    ensures InputError(a).Some? ==> r == Failure(InputError(a).value)
    ensures InputError(a).None? && |a.shape| < 2 ==> r == Failure(ShapeIndexOutOfRange)
    ensures (InputError(a).None? && |a.shape| >= 3 && Policy(a.shape) == NDTiled
             && a.shape[|a.shape| - 1] == 0) ==> r == Failure(ReshapeSizeMismatch)
    ensures r.Success? <==>
              && InputError(a).None? && |a.shape| >= 2
              && !(Policy(a.shape) == NDTiled && a.shape[|a.shape| - 1] == 0)
    ensures r.Success? ==>
              fresh(r.value.params) && fresh(r.value.image) && CommonHandoff(r.value, codec, a)
    ensures r.Success? && Policy(a.shape) == TwoD ==> GrayHandoff(r.value, a)
    ensures r.Success? && Policy(a.shape) == MultiChannel ==>
              fresh(r.value.data) && ColourHandoff(r.value, a)
    ensures r.Success? && Policy(a.shape) == NDTiled ==> TiledHandoff(r.value, a)
  {
    var invalid := InputError(a);
    if invalid.Some? {
      return Failure(invalid.value);
    }
    var params := new CParameters();
    ConfigureLayers(params, codec);
    r := Describe(params, a);
  }
}
