/**
 * Container sniffing on decode: which of the JPEG 2000 stream formats a compressed buffer
 * holds, read off its first bytes. The signatures are the JP2 signature box of
 * ISO/IEC 15444-1 Annex I (in full, as registered in RFC 3745, and its last four bytes)
 * and the start of a raw codestream of Annex A (the SOC marker followed by the SIZ marker).
 */
module CodecFormats {
  import opened Wrappers
  import opened Errors

  type byte = b: int | 0 <= b < 256

  /** The OpenJPEG codec formats. */
  datatype CodecFormat =
    | OPJ_CODEC_J2K   // raw codestream
    | OPJ_CODEC_JPT   // JPT-stream (JPIP), read only
    | OPJ_CODEC_JP2   // JP2 file format
    | OPJ_CODEC_JPP   // JPP-stream (JPIP)
    | OPJ_CODEC_JPX   // JPX file format (JPEG 2000 Part 2)

  /** The 12-byte JP2 signature box: length 12, box type 'jP  ', contents 0d 0a 87 0a. */
  const JP2_RFC3745_MAGIC: seq<byte> := [0x00, 0x00, 0x00, 0x0c, 0x6a, 0x50, 0x20, 0x20, 0x0d, 0x0a, 0x87, 0x0a]
  /** The contents of the JP2 signature box alone. */
  const JP2_MAGIC: seq<byte> := [0x0d, 0x0a, 0x87, 0x0a]
  /** SOC (ff 4f) followed by SIZ (ff 51): how every codestream begins. */
  const J2K_CODESTREAM_MAGIC: seq<byte> := [0xff, 0x4f, 0xff, 0x51]

  /** Python's `buf[:n]`: the first n bytes, or all of them when there are fewer. */
  function Prefix(buf: seq<byte>, n: nat): (p: seq<byte>)
    ensures |p| == if |buf| < n then |buf| else n
    ensures p <= buf
  {
    if |buf| <= n then buf else buf[..n]
  }

  /** `buf` begins with `magic`. */
  predicate StartsWith(buf: seq<byte>, magic: seq<byte>)
  {
    |magic| <= |buf| && buf[..|magic|] == magic
  }

  /**
   * The format of a compressed buffer. The three signatures are tried longest first; a
   * buffer that begins with none of them is refused.
   */
  function GetCodecFormat(buf: seq<byte>): (r: Result<CodecFormat, Error>)
    ensures r == Success(OPJ_CODEC_JP2) <==>
              StartsWith(buf, JP2_RFC3745_MAGIC) || StartsWith(buf, JP2_MAGIC)
    ensures r == Success(OPJ_CODEC_J2K) <==> StartsWith(buf, J2K_CODESTREAM_MAGIC)
    ensures r == Failure(InvalidHeader) <==>
              !StartsWith(buf, JP2_RFC3745_MAGIC) && !StartsWith(buf, JP2_MAGIC)
              && !StartsWith(buf, J2K_CODESTREAM_MAGIC)
    ensures r.Success? ==> r.value in {OPJ_CODEC_JP2, OPJ_CODEC_J2K}
  {
    PrefixMatch(buf, JP2_RFC3745_MAGIC);
    PrefixMatch(buf, JP2_MAGIC);
    PrefixMatch(buf, J2K_CODESTREAM_MAGIC);
    SignaturesDisjoint(buf);
    if Prefix(buf, |JP2_RFC3745_MAGIC|) == JP2_RFC3745_MAGIC then Success(OPJ_CODEC_JP2)
    else if Prefix(buf, |JP2_MAGIC|) == JP2_MAGIC then Success(OPJ_CODEC_JP2)
    else if Prefix(buf, |J2K_CODESTREAM_MAGIC|) == J2K_CODESTREAM_MAGIC then Success(OPJ_CODEC_J2K)
    else Failure(InvalidHeader)
  }

  /** Comparing Python's slice with a signature is testing that the buffer begins with it. */
  lemma PrefixMatch(buf: seq<byte>, magic: seq<byte>)
    ensures Prefix(buf, |magic|) == magic <==> StartsWith(buf, magic)
  {
  }

  /** No buffer begins with both a JP2 signature and the codestream signature. */
  lemma SignaturesDisjoint(buf: seq<byte>)
    ensures StartsWith(buf, J2K_CODESTREAM_MAGIC) ==>
              !StartsWith(buf, JP2_RFC3745_MAGIC) && !StartsWith(buf, JP2_MAGIC)
  {
    if StartsWith(buf, J2K_CODESTREAM_MAGIC) {
      assert buf[0] == buf[..4][0] == 0xff;
      if |buf| >= 12 {
        assert buf[..12][0] == buf[0];
      }
    }
  }

  /** A buffer shorter than every signature is refused. */
  lemma ShortBufferRejected(buf: seq<byte>)
    requires |buf| < 4
    ensures GetCodecFormat(buf) == Failure(InvalidHeader)
  {
  }

  /**
   * Nothing past the first twelve bytes is looked at: buffers whose Python slices `[:12]`
   * agree are given the same format.
   */
  lemma SamePrefixSameFormat(a: seq<byte>, b: seq<byte>)
    requires Prefix(a, 12) == Prefix(b, 12)
    ensures GetCodecFormat(a) == GetCodecFormat(b)
  {
    if |a| >= 12 {
      assert |b| >= 12;
      assert a[..4] == a[..12][..4] == b[..12][..4] == b[..4];
    } else {
      assert a == b;
    }
  }

  /** In particular, bytes appended after the first twelve never change the format. */
  lemma TrailingBytesIgnored(buf: seq<byte>, tail: seq<byte>)
    requires |buf| >= 12
    ensures GetCodecFormat(buf + tail) == GetCodecFormat(buf)
  {
    assert (buf + tail)[..12] == buf[..12];
    SamePrefixSameFormat(buf + tail, buf);
  }
}
