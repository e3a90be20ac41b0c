/**
 * The compression parameters handed to OpenJPEG (its `opj_cparameters` record) and the
 * quality policy that turns one knob, a compression rate or a PSNR target, into the
 * rate/distortion layer description.
 */
module Parameters {
  import opened Wrappers
  import opened Errors

  /** OpenJPEG progression orders. */
  datatype ProgOrder = OPJ_LRCP | OPJ_RLCP | OPJ_RPCL | OPJ_PCRL | OPJ_CPRL

  /**
   * The parameter fields that are set once at construction and never read or changed by
   * the adapter. Fields that the adapter leaves as Python's `None` are `Option`s that stay
   * `None`; their payload type is never exercised.
   */
  datatype FixedFields = FixedFields(
    cpTx0: int, cpTy0: int, cpFixedAlloc: int, cpComment: Option<string>, csty: int,
    progOrder: ProgOrder, pocs: Option<seq<int>>, numpocs: int, numresolution: int,
    cblockwInit: int, cblockhInit: int, mode: int, roiCompno: int, roiShift: int,
    resSpec: int, prcwInit: Option<seq<int>>, prchInit: Option<seq<int>>,
    imageOffsetX0: int, imageOffsetY0: int, subsamplingDx: int, subsamplingDy: int,
    decodFormat: int, codFormat: int, maxCompSize: int, tpOn: int, tpFlag: int,
    tcpMct: int, jpipOn: bool, mctData: Option<seq<int>>, maxCsSize: int, rsiz: int)

  /** The values the constructor gives the fixed fields: one resolution, 64x64 code blocks, no subsampling. */
  function DefaultFixed(): (f: FixedFields)
    ensures f.subsamplingDx == 1 && f.subsamplingDy == 1
    ensures f.numresolution == 1 && f.progOrder == OPJ_LRCP
  {
    FixedFields(
      cpTx0 := 0, cpTy0 := 0, cpFixedAlloc := 0, cpComment := None, csty := 0,
      progOrder := OPJ_LRCP, pocs := None, numpocs := 0, numresolution := 1,
      cblockwInit := 64, cblockhInit := 64, mode := 0, roiCompno := -1, roiShift := 0,
      resSpec := 0, prcwInit := None, prchInit := None,
      imageOffsetX0 := 0, imageOffsetY0 := 0, subsamplingDx := 1, subsamplingDy := 1,
      decodFormat := -1, codFormat := -1, maxCompSize := 0, tpOn := 0, tpFlag := 0,
      tcpMct := 0, jpipOn := false, mctData := None, maxCsSize := 0, rsiz := 0)
  }

  /**
   * The six fields the quality setters write: the allocation mode (`cpDistoAlloc` selects
   * rate allocation, `cpFixedQuality` distortion allocation), the layer count, the
   * per-layer rate and PSNR lists and the irreversible-transform flag.
   */
  datatype Layering = Layering(
    cpDistoAlloc: int, cpFixedQuality: int, tcpNumlayers: int,
    tcpRates: Option<seq<real>>, tcpDistoratio: Option<seq<real>>, irreversible: int)

  /** The layer values that drive the encoder: the rates in rate mode, the PSNRs otherwise. */
  function ActiveLayers(q: Layering): Option<seq<real>>
  {
    if q.cpDistoAlloc == 1 then q.tcpRates else q.tcpDistoratio
  }

  /** A final layer value of 0 asks for lossless coding. */
  function IrreversibleFor(layers: seq<real>): int
    requires |layers| > 0
  {
    if layers[|layers| - 1] == 0.0 then 0 else 1
  }

  /**
   * A layer description OpenJPEG can act on: exactly one allocation mode, a non-empty
   * active layer list whose length is the layer count, and the irreversible flag set
   * exactly when the last layer is lossy.
   */
  predicate Coherent(q: Layering)
  {
    && (q.cpDistoAlloc, q.cpFixedQuality) in {(1, 0), (0, 1)}
    && ActiveLayers(q).Some?
    && |ActiveLayers(q).value| > 0
    && q.tcpNumlayers == |ActiveLayers(q).value|
    && q.irreversible == IrreversibleFor(ActiveLayers(q).value)
  }

  /** Exactly one of the two layer lists is populated. */
  predicate OneListPopulated(q: Layering)
  {
    q.tcpRates.Some? != q.tcpDistoratio.Some?
  }

  /** Lossless coding: the reversible wavelet transform. */
  predicate Lossless(q: Layering)
  {
    q.irreversible == 0
  }

  /** What a freshly constructed parameter record holds: one lossless rate-allocated layer. */
  function DefaultLayering(): Layering
  {
    Layering(cpDistoAlloc := 1, cpFixedQuality := 0, tcpNumlayers := 1,
             tcpRates := Some([0.0]), tcpDistoratio := Some([0.0]), irreversible := 0)
  }

  /**
   * The layer fields after `set_rates(rates)` on `q`. On an empty list the Python code has
   * already written the mode, the list and the count when `rates[-1]` raises, so those
   * four fields change and the other two keep their old values.
   */
  function WithRates(q: Layering, rates: seq<real>): (r: Layering)
    ensures r.cpDistoAlloc == 1 && r.cpFixedQuality == 0
    ensures r.tcpRates == Some(rates) && r.tcpNumlayers == |rates|
    ensures |rates| > 0 ==> r.tcpDistoratio == None && Coherent(r) && OneListPopulated(r)
    ensures |rates| > 0 ==> (Lossless(r) <==> rates[|rates| - 1] == 0.0)
    ensures |rates| == 0 ==> r.tcpDistoratio == q.tcpDistoratio && r.irreversible == q.irreversible
  {
    var started := q.(cpDistoAlloc := 1, cpFixedQuality := 0, tcpRates := Some(rates),
                      tcpNumlayers := |rates|);
    if |rates| == 0 then started
    else started.(irreversible := IrreversibleFor(rates), tcpDistoratio := None)
  }

  /** The layer fields after `set_psnrs(psnrs)` on `q`, the distortion-allocation mirror of WithRates. */
  function WithPsnrs(q: Layering, psnrs: seq<real>): (r: Layering)
    ensures r.cpDistoAlloc == 0 && r.cpFixedQuality == 1
    ensures r.tcpDistoratio == Some(psnrs) && r.tcpNumlayers == |psnrs|
    ensures |psnrs| > 0 ==> r.tcpRates == None && Coherent(r) && OneListPopulated(r)
    ensures |psnrs| > 0 ==> (Lossless(r) <==> psnrs[|psnrs| - 1] == 0.0)
    ensures |psnrs| == 0 ==> r.tcpRates == q.tcpRates && r.irreversible == q.irreversible
  {
    var started := q.(cpDistoAlloc := 0, cpFixedQuality := 1, tcpDistoratio := Some(psnrs),
                      tcpNumlayers := |psnrs|);
    if |psnrs| == 0 then started
    else started.(irreversible := IrreversibleFor(psnrs), tcpRates := None)
  }

  /**
   * A setter's outcome does not depend on what was there before: after a successful call
   * the layer fields are determined by the list alone, so the last call wins.
   */
  lemma SettersForgetHistory(q1: Layering, q2: Layering, layers: seq<real>)
    requires |layers| > 0
    ensures WithRates(q1, layers) == WithRates(q2, layers)
    ensures WithPsnrs(q1, layers) == WithPsnrs(q2, layers)
    ensures WithRates(WithPsnrs(q1, layers), layers) == WithRates(q1, layers)
    ensures WithPsnrs(WithRates(q1, layers), layers) == WithPsnrs(q1, layers)
  {
  }

  /** The default is lossless and coherent, but has both lists populated. */
  lemma DefaultIsLossless()
    ensures Lossless(DefaultLayering()) && Coherent(DefaultLayering())
    ensures !OneListPopulated(DefaultLayering())
    ensures ActiveLayers(DefaultLayering()) == Some([0.0])
    ensures DefaultLayering().cpDistoAlloc == 1 && DefaultLayering().cpFixedQuality == 0
    ensures DefaultLayering().tcpNumlayers == 1
    ensures DefaultLayering().tcpRates == Some([0.0]) && DefaultLayering().tcpDistoratio == Some([0.0])
  {
  }

  /**
   * The layers the encoder configures for a codec's `snr` and `rate`: PSNR allocation when
   * `snr` is positive, otherwise rate allocation when `rate` is positive, otherwise the
   * lossless default. A single layer is coded, lossless exactly when neither knob is set.
   */
  function EncodeLayering(snr: real, rate: real): (q: Layering)
    ensures Coherent(q) && q.tcpNumlayers == 1
    ensures Lossless(q) <==> snr <= 0.0 && rate <= 0.0
    ensures snr > 0.0 ==> ActiveLayers(q) == Some([snr]) && q.cpFixedQuality == 1 && OneListPopulated(q)
    ensures snr <= 0.0 && rate > 0.0 ==> ActiveLayers(q) == Some([rate]) && q.cpDistoAlloc == 1 && OneListPopulated(q)
    ensures snr <= 0.0 && rate <= 0.0 ==> q == DefaultLayering()
    ensures snr > 0.0 ==> q == WithPsnrs(DefaultLayering(), [snr])
    ensures snr <= 0.0 && rate > 0.0 ==> q == WithRates(DefaultLayering(), [rate])
  {
    if snr > 0.0 then WithPsnrs(DefaultLayering(), [snr])
    else if rate > 0.0 then WithRates(DefaultLayering(), [rate])
    else DefaultLayering()
  }

  /**
   * The parameter record, following OpenJPEG's `opj_cparameters`. The tiling fields and
   * the six layer fields are updated in place by the setters and by the encoder; the rest
   * are fixed at construction.
   */
  class CParameters {
    var tileSizeOn: bool
    var cpTdx: int
    var cpTdy: int
    var cpDistoAlloc: int
    var cpFixedQuality: int
    var tcpNumlayers: int
    var tcpRates: Option<seq<real>>
    var tcpDistoratio: Option<seq<real>>
    var irreversible: int
    var fixed: FixedFields

    /** The six layer fields as one value. */
    function Quality(): Layering
      reads this
    {
      Layering(cpDistoAlloc, cpFixedQuality, tcpNumlayers, tcpRates, tcpDistoratio, irreversible)
    }

    constructor ()
      ensures !tileSizeOn && cpTdx == 0 && cpTdy == 0
      ensures Quality() == DefaultLayering()
      ensures fixed == DefaultFixed()
    {
      tileSizeOn := false;
      cpTdx, cpTdy := 0, 0;
      cpDistoAlloc := 1;
      cpFixedQuality := 0;
      tcpNumlayers := 1;
      tcpRates := Some([0.0]);
      tcpDistoratio := Some([0.0]);
      irreversible := 0;
      fixed := DefaultFixed();
    }

    /**
     * Rate allocation with the given per-layer compression rates (decreasing; a last
     * rate of 0 is lossless). An empty list fails after the first four fields are written.
     */
    method SetRates(rates: seq<real>) returns (err: Option<Error>)
      modifies this
      ensures err == if |rates| == 0 then Some(EmptyLayerList) else None
      ensures Quality() == WithRates(old(Quality()), rates)
      ensures tileSizeOn == old(tileSizeOn) && cpTdx == old(cpTdx) && cpTdy == old(cpTdy)
      ensures fixed == old(fixed)
    {
      cpDistoAlloc := 1;
      cpFixedQuality := 0;
      tcpRates := Some(rates);
      tcpNumlayers := |rates|;
      if |rates| == 0 {
        return Some(EmptyLayerList);
      }
      if rates[|rates| - 1] == 0.0 {
        irreversible := 0;
      } else {
        irreversible := 1;
      }
      tcpDistoratio := None;
      err := None;
    }

    /**
     * Distortion allocation with the given per-layer PSNRs in dB (increasing; a last
     * value of 0 is lossless). An empty list fails after the first four fields are written.
     */
    method SetPsnrs(psnrs: seq<real>) returns (err: Option<Error>)
      modifies this
      ensures err == if |psnrs| == 0 then Some(EmptyLayerList) else None
      ensures Quality() == WithPsnrs(old(Quality()), psnrs)
      ensures tileSizeOn == old(tileSizeOn) && cpTdx == old(cpTdx) && cpTdy == old(cpTdy)
      ensures fixed == old(fixed)
    {
      cpDistoAlloc := 0;
      cpFixedQuality := 1;
      tcpDistoratio := Some(psnrs);
      tcpNumlayers := |psnrs|;
      if |psnrs| == 0 {
        return Some(EmptyLayerList);
      }
      if psnrs[|psnrs| - 1] == 0.0 {
        irreversible := 0;
      } else {
        irreversible := 1;
      }
      tcpRates := None;
      err := None;
    }
  }
}
