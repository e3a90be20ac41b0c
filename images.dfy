/**
 * The image description handed to OpenJPEG: one component record per channel (its
 * `opj_image_comptparm`) and the image record (its `opj_image`).
 */
module Images {
  import opened Wrappers
  import opened Errors
  import opened NdArrays

  /** OpenJPEG colour spaces. */
  datatype ColorSpace =
    | OPJ_CLRSPC_UNSPECIFIED | OPJ_CLRSPC_SRGB | OPJ_CLRSPC_GRAY
    | OPJ_CLRSPC_SYCC | OPJ_CLRSPC_EYCC | OPJ_CLRSPC_CMYK

  /**
   * One component: subsampling (dx, dy), offset (x0, y0), size (h, w), signedness and
   * bit depth (prec, bpp).
   */
  datatype ComptParm = ComptParm(dx: int, dy: int, x0: int, y0: int, h: nat, w: nat,
                                 sgnd: int, prec: nat, bpp: nat)

  /** The component record of a two-dimensional integer plane of the given shape and dtype. */
  predicate DescribesPlane(c: ComptParm, h: int, w: int, dtype: DType)
  {
    && c.h == h && c.w == w
    && c.dx == 1 && c.dy == 1 && c.x0 == 0 && c.y0 == 0
    && (c.sgnd == 1 <==> dtype.kind == 'i') && (c.sgnd == 0 <==> dtype.kind != 'i')
    && c.prec == 8 * dtype.itemsize && c.bpp == c.prec
  }

  /** Every component in the list describes such a plane. */
  predicate AllDescribePlane(comps: seq<ComptParm>, h: int, w: int, dtype: DType)
  {
    forall k :: 0 <= k < |comps| ==> DescribesPlane(comps[k], h, w, dtype)
  }

  /**
   * The component of an array with this shape and dtype. Its assertions refuse anything
   * but a two-dimensional integer array; the size comes from the shape, signedness from
   * the dtype kind and the bit depth from the item size.
   */
  function MakeComponent(shape: seq<nat>, dtype: DType): (r: Result<ComptParm, Error>)
    ensures r.Success? <==> |shape| == 2 && dtype.kind in {'u', 'i'}
    ensures |shape| != 2 ==> r == Failure(ComponentNot2D)
    ensures |shape| == 2 && dtype.kind !in {'u', 'i'} ==> r == Failure(ComponentNotInteger)
    ensures r.Success? ==> DescribesPlane(r.value, shape[0], shape[1], dtype)
    ensures r.Success? && dtype.itemsize in {1, 2, 4} ==> r.value.prec in {8, 16, 32}
  {
    if |shape| != 2 then Failure(ComponentNot2D)
    else if dtype.kind !in {'u', 'i'} then Failure(ComponentNotInteger)
    else
      var prec := dtype.itemsize * 8;
      Success(ComptParm(dx := 1, dy := 1, x0 := 0, y0 := 0, h := shape[0], w := shape[1],
                        sgnd := if dtype.kind == 'i' then 1 else 0, prec := prec, bpp := prec))
  }

  /**
   * The image record. Its extent (x0, y0)-(x1, y1) and colour space are filled in by the
   * encoder after construction.
   */
  class CImage {
    var x0: int
    var x1: int
    var y0: int
    var y1: int
    var numcomps: nat
    var cmptparms: seq<ComptParm>
    var colorSpace: ColorSpace

    /** The component count matches the component list. */
    predicate Valid()
      reads this
    {
      numcomps == |cmptparms|
    }

    constructor (components: seq<ComptParm>)
      ensures Valid() && cmptparms == components
      ensures x0 == 0 && x1 == 0 && y0 == 0 && y1 == 0
      ensures colorSpace == OPJ_CLRSPC_GRAY
    {
      x0, x1, y0, y1 := 0, 0, 0, 0;
      numcomps := |components|;
      cmptparms := components;
      colorSpace := OPJ_CLRSPC_GRAY;
    }
  }
}
