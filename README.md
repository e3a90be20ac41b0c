# JPEG 2000 codec adapter (numcodecs)

This project models `numcodecs/jpeg2000.py`, the numcodecs codec that connects an
N-dimensional integer array to the parameter and image records of the OpenJPEG library.
The model covers five things:

- **Container sniffing.** A compressed buffer is classified by its leading magic bytes.
  The 12-byte JP2 signature box of RFC 3745 and the 4-byte JP2 signature give the JP2
  file format. The SOC+SIZ marker pair `ff 4f ff 51` gives a raw J2K codestream.
  Anything else is an invalid header.
- **Quality policy.** The codec takes an `snr` (PSNR target in dB) or a `rate` (N-fold
  compression), never both. The parameter record (`opj_cparameters`) starts out
  lossless. `set_rates` and `set_psnrs` switch the allocation mode, fill one per-layer
  list, clear the other, set the layer count, and set the irreversible flag.
- **Input validation.** `encode` refuses an array that is not C-contiguous, whose dtype
  is not a signed or unsigned integer, or whose items are wider than 32 bits. The checks
  run in that order.
- **Image description.** Encoding stops at the hand-off to the engine. A rank-2 array is
  one grey plane. A (height, width, 3|4) array is copied into channel-major order and
  becomes an sRGB image with one component per channel. Every other array of rank 3 or
  more is reshaped into a tall raster of stacked tiles of its last two dimensions.
- **Configuration.** `get_config` and `from_config` round-trip.

Files:

- `wrappers.dfy`: `Option` and `Result`.
- `errors.dfy`: the error conditions and the Python exception class each one raises.
- `ndarrays.dfy`: the array (shape, dtype, contiguity flag, flat row-major element
  buffer), the element count, and row-major index arithmetic.
- `codec_format.dfy`: the magic constants and the sniffer.
- `parameters.dfy`: the parameter record as a class, and the layer fields as a value
  that specifies it.
- `images.dfy`: component and image records.
- `jpeg2000.dfy`: the codec, its configuration, and `encode` up to the engine.

Modelling choices:

- `buf[:n] == magic` uses Python slice semantics. A buffer shorter than `n` is compared
  as it is, so it never matches.
- `snr` and `rate` are only compared with 0 and stored, so they are `real`.
- A configuration is a map from keys to a string or a number. The model follows the
  error order of the Python code: `KeyError` for "snr", then for "rate"; a string fails
  the constructor's first comparison that reaches it.
- `set_rates([])` and `set_psnrs([])` are modelled as the code behaves. Four fields are
  written, then `rates[-1]` raises `IndexError`. The model returns that error and keeps
  those four writes.
- numpy's `reshape(-1, 0)` cannot infer the unknown dimension and raises `ValueError`.
  In the tiling branch this is the outcome for an array whose last dimension is 0.

Behaviour of the code worth noting:

- The sniffer accepts a 4-byte buffer that is exactly a 4-byte signature. A buffer is
  not refused just for being shorter than the longest magic.
- A rank-3 array whose trailing dimension is not 3 or 4 is tiled, not refused.
- In the tiling branch the single component spans the whole reshaped raster, not one
  tile.
- With neither knob set, the engine receives the default layer state: one layer, and
  both the rate list and the PSNR list are `[0.0]`.
- An array of rank below 2 fails in `encode` on `shape[-1]` or `shape[-2]`, an
  `IndexError`. It never reaches the `ValueError` in `reshape_buf`.
- The codec's tests hand the encode/decode round trip 1-D arrays and a non-contiguous
  slice (numcodecs/tests/test_jpeg2000.py lines 29-30 and 36). `encode` refuses both: the
  1-D arrays with an `IndexError`, the slice with a `TypeError`.

## Model

| member | source | states |
|---|---|---|
| Errors.Kind | numcodecs/jpeg2000.py:43-284 | the Python exception class of each failure, raised at lines 43, 117/134, 152-153, 200-204, 211-218, 247-248, 259, 263 and 284: `TypeError` exactly for a value that cannot be compared with 0 and for the three input checks of `encode`; `KeyError` exactly for a missing configuration key; `IndexError` exactly for `shape[-1]`/`shape[-2]` of a low-rank array and `rates[-1]` of an empty list; `AssertionError` exactly for the component assertions; `ValueError` for the invalid header, the constructor checks, `reshape_buf`'s rank check and numpy's reshape |
| CodecFormats.GetCodecFormat | numcodecs/jpeg2000.py:36-43 | JP2 exactly when the buffer starts with the 12-byte RFC 3745 box or the 4-byte JP2 signature; J2K exactly when it starts with `ff 4f ff 51`; otherwise an invalid-header error; no other format is produced |
| CodecFormats.ShortBufferRejected | numcodecs/jpeg2000.py:36-43 | every buffer shorter than 4 bytes is an invalid header |
| CodecFormats.SamePrefixSameFormat | numcodecs/jpeg2000.py:36-43 | two buffers that agree on their first 12 bytes are classified alike, so no byte past index 12 matters |
| CodecFormats.TrailingBytesIgnored | numcodecs/jpeg2000.py:36-43 | appending bytes to a buffer of at least 12 bytes does not change its classification |
| Parameters.DefaultFixed | numcodecs/jpeg2000.py:58-103 | the constant fields start with 1x1 subsampling, one resolution and LRCP order |
| Parameters.WithRates | numcodecs/jpeg2000.py:105-121 | rate allocation is selected with the given list and count; for a non-empty list the PSNR list is cleared, exactly one list is populated, and the result is lossless iff the last rate is 0; for an empty list the PSNR list and flag are untouched |
| Parameters.WithPsnrs | numcodecs/jpeg2000.py:123-138 | the mirror image: distortion allocation, PSNR list and count set, rate list cleared, lossless iff the last PSNR is 0 |
| Parameters.SettersForgetHistory | numcodecs/jpeg2000.py:105-138 | a setter's result does not depend on the earlier layer state, and a second setter call overrides the first |
| Parameters.DefaultIsLossless | numcodecs/jpeg2000.py:64-83 | the default layers (`DefaultLayering`) are rate allocation (1, 0), one layer, both lists `[0.0]`, reversible, hence lossless and coherent with `[0.0]` active |
| Parameters.EncodeLayering | numcodecs/jpeg2000.py:220-224 | one coherent layer with exactly one allocation mode, (1, 0) or (0, 1); lossless iff neither knob is positive; a positive snr gives `set_psnrs([snr])` applied to the defaults, else a positive rate gives `set_rates([rate])` applied to the defaults, else the defaults stay |
| Parameters.CParameters.constructor | numcodecs/jpeg2000.py:58-103 | tiling off, tile size 0, lossless default layers, the constant fields at their defaults |
| Parameters.CParameters.SetRates | numcodecs/jpeg2000.py:105-121 | the layer fields become `WithRates` of their old value; an empty list gives an `IndexError`; tiling and constant fields are unchanged |
| Parameters.CParameters.SetPsnrs | numcodecs/jpeg2000.py:123-138 | the layer fields become `WithPsnrs` of their old value; an empty list gives an `IndexError`; tiling and constant fields are unchanged |
| Images.MakeComponent | numcodecs/jpeg2000.py:145-162 | succeeds iff the array is 2-D with an integer kind; otherwise the 2-D assertion, then the integer assertion fails; on success the component spans the plane with unit subsampling at the origin, is signed iff the kind is `i`, and has precision and bpp 8 x itemsize (8, 16 or 32 after validation) |
| Images.CImage.constructor | numcodecs/jpeg2000.py:169-176 | component count equals the list length, the image sits at the origin with extent 0, grey colour space |
| Jpeg2000.NewCodec | numcodecs/jpeg2000.py:198-206 | succeeds iff at most one knob is positive and neither is negative, and then keeps both values; the errors come in the code's order and are all `ValueError` |
| Jpeg2000.DefaultCodecIsLossless | numcodecs/jpeg2000.py:192-198 | `JPEG2000()` builds and encodes losslessly |
| Jpeg2000.LosslessIffNoKnob | numcodecs/jpeg2000.py:220-224 | for any valid codec, encoding is lossless iff snr and rate are both 0 |
| Jpeg2000.GetConfig | numcodecs/jpeg2000.py:275-280 | the configuration has exactly the keys id, snr and rate; id is "jpeg2000" and snr and rate hold the codec's values |
| Jpeg2000.FromConfig | numcodecs/jpeg2000.py:282-284 | a missing "snr" is reported before a missing "rate"; with both keys numeric, extra keys ignored, the result is the constructor's on those numbers; a string snr is a `TypeError`, a string rate is a `TypeError` unless a negative snr raises `ValueError` first; every failure is a `KeyError`, `TypeError` or `ValueError`; any codec it builds is valid and carries the configured numbers |
| Jpeg2000.ConfigRoundTrip | numcodecs/jpeg2000.py:275-284 | `from_config(get_config(c))` gives back `c` |
| Jpeg2000.ConfigRoundTripFromConfig | numcodecs/jpeg2000.py:275-284 | a configuration with just the codec's keys that builds a codec is that codec's configuration |
| Jpeg2000.InputError | numcodecs/jpeg2000.py:210-219 | no error iff contiguous, integer kind and itemsize at most 4; otherwise the first failing check in the code's order, always a `TypeError` |
| Jpeg2000.Policy | numcodecs/jpeg2000.py:225-242 | grey iff rank 2; colour iff rank 3 with 3 or 4 trailing channels; tiling otherwise |
| Jpeg2000.ReshapeRows | numcodecs/jpeg2000.py:263 | `reshape(-1, cols)` succeeds iff `cols` is positive and divides the element count, giving two dimensions that end in `cols` and keep the element count |
| Jpeg2000.ReshapeBuf | numcodecs/jpeg2000.py:257-264 | rank 1 is refused; ranks 0 and 2 are kept; above rank 2 it succeeds iff the last dimension is positive and gives (product of the leading dimensions, last); the element count is always kept |
| Jpeg2000.DispatchExamples | numcodecs/tests/test_jpeg2000.py:28-37 | the branch and reshaped shape for the test shapes (30, 40), (41, 29), (21, 22, 23) and (255,), plus three further examples; (21, 22, 23) gives a 462 x 23 raster, and (255,) reaches the tiling branch with rank below 2 |
| Jpeg2000.SourceIndex | numcodecs/jpeg2000.py:234 | the source index of a channel-major element is in range and names its pixel and channel |
| Jpeg2000.SourceIndexInverse | numcodecs/jpeg2000.py:234 | the transpose's index map is undone by the reverse transpose, so it is a bijection |
| Jpeg2000.SourceIndexAt | numcodecs/jpeg2000.py:234 | channel-major element (ch, i, j) is taken from pixel-major element (i, j, ch) |
| Jpeg2000.ChannelMajor | numcodecs/jpeg2000.py:234 | a fresh buffer with the same element count, where `out[ch][i][j] == in[i][j][ch]` |
| Jpeg2000.GreyImage | numcodecs/jpeg2000.py:251-253 | a fresh image record with the one given component, extent (width, height), origin 0, grey, every component spanning the extent |
| Jpeg2000.ColourImage | numcodecs/jpeg2000.py:235-241 | a fresh image record with one copy of the plane component per channel, extent (width, height), origin 0, sRGB |
| Jpeg2000.DescribeGray | numcodecs/jpeg2000.py:225-230 | one grey component over the plane; image extent and tile size are (shape[1], shape[0]); tiling off; the caller's buffer is passed on unchanged |
| Jpeg2000.DescribeColour | numcodecs/jpeg2000.py:231-241 | one component per channel, each over the height x width plane; image extent equals tile size; sRGB; tiling off; the buffer is the channel-major copy |
| Jpeg2000.DescribeTiled | numcodecs/jpeg2000.py:242-253 | rank 0 fails on `shape[-1]` and rank 1 on `shape[-2]`, both `IndexError`; a zero last dimension fails in the reshape; otherwise the tiles are the last two dimensions, tiling is on, and one grey component spans a raster whose height is a whole number of tiles, over the same buffer |
| Jpeg2000.ConfigureLayers | numcodecs/jpeg2000.py:220-224 | the layer fields of a fresh record become the layering that the codec's knobs select; tiling flag, tile size and constant fields are unchanged |
| Jpeg2000.Describe | numcodecs/jpeg2000.py:225-253 | dispatches to the three branches, with the failure cases and results of each |
| Jpeg2000.Encode | numcodecs/jpeg2000.py:208-255 | input errors come first, in order; then rank below 2 and a zero tiling dimension fail; otherwise the hand-off is a J2K stream with the codec's layering, default constant fields, no element lost, every component spanning the image with the array's signedness and depth, and the branch-specific layout of the three `Describe` branches |

## Left out

- `jpeg2k_encode` and `jpeg2k_decode`, the OpenJPEG engine (wavelet transform, entropy
  coding, stream writing), are not part of this model. `Encode` stops at the call and
  returns its arguments.
- `decode` contains only the sniff and the engine call. The sniff is modelled. The `out`
  argument is never written by the code, because `flatten()` returns a copy, so the
  model makes no promise about it.
- `np.frombuffer(buf.data, np.uint8)` depends on machine byte order. The hand-off keeps
  the element buffer, not its bytes.
- The dtype is only its kind and item size. numpy's own dtype rules are not modelled.
- `ensure_ndarray`, the `Codec` base class, equality and `repr` are not part of this
  model. The array is taken as already converted to shape, dtype, contiguity flag and
  elements.
- The logger level set at import time is a side effect with no logic and is left out.
- The `ProgOrder` and `ColorSpace` enumerations are modelled only as names, without
  their numeric values.
- `setup.py` is build configuration and is left out.
- `snr` and `rate` are exact reals. Floating-point rounding cannot change a comparison
  with 0 or a stored value.
- `snr` and `rate` cannot be NaN. In Python `float('nan')` passes all three constructor
  checks and `encode` then treats it as unset; the model has no such value.
- Configuration values can only be strings or numbers. Other Python objects that
  `from_config` could be given are not modelled.
- With assertions disabled (`python -O`), `CImageComptParm` would not check its input.
  The model keeps the assertions. `encode` never violates them, because it validates the
  kind first and always passes a 2-D shape.
- Jpeg2000.ChannelMajor: proves the element-by-element index map and that the map is a
  bijection. It does not state the copy as a multiset equality.
- Parameters.DefaultFixed: its contract names only the fields the adapter documents
  (subsampling, resolutions, progression order). The other constant fields are pinned by
  `Parameters.CParameters.constructor`, which equates them with this record.
