/** The "LU" animation container: its 8-byte header, the frame-rate rules and
    the RGB565 pixel packing used by the frame data. Bytes are `bv8`, 16-bit
    words `bv16`, so the shifts, masks and truncations of the Rust code are
    modelled exactly. */
module LuluuEnc {

  /** Size in bytes of the packed header (2 + 1 + 1 + 1 + 1 + 2). */
  const HEADER_SIZE: nat := 8

  /** Largest 5-bit and 6-bit colour components. */
  const MAX_5: bv8 := 0x1F
  const MAX_6: bv8 := 0x3F

  datatype Encoding = Encoding(value: bv8)
  const RGB888 := Encoding(0)
  const RGB565BE := Encoding(1)

  datatype Version = Version(value: bv8)
  const VERSION_ZERO := Version(0)

  datatype MagicBytes = MagicBytes(b0: bv8, b1: bv8)
  /** ASCII "LU". */
  const MAGIC_CORRECT := MagicBytes(0x4C, 0x55)

  datatype Error =
    | WrongMagicBytes(magic: MagicBytes)
    | UnknownVersion(version: Version)
    | UnknownEncoding(encoding: Encoding)
    | UnsupportedSize(size: Size)
    | UnsupportedFrameRate(frameRate: FrameRate)

  datatype Result<T> = Ok(value: T) | Err(error: Error)

  /** The frame count, stored as two little-endian bytes. */
  datatype NumFrames = NumFrames(b0: bv8, b1: bv8) {

    static function FromU16(n: bv16): (nf: NumFrames)
      ensures nf.b0 as bv16 == n % 256 && nf.b1 as bv16 == n / 256
    {
      NumFrames((n & 0xFF) as bv8, (n >> 8) as bv8)
    }

    function AsU16(): (n: bv16)
      ensures n / 256 == b1 as bv16 && n % 256 == b0 as bv16
    {
      ((b1 as bv16) << 8) | (b0 as bv16)
    }
  }

  /** `from_u16` and `as_u16` are inverse bijections between u16 values and
      byte pairs. */
  lemma NumFramesRoundTrip(n: bv16, nf: NumFrames)
    ensures NumFrames.FromU16(n).AsU16() == n
    ensures NumFrames.FromU16(nf.AsU16()) == nf
  {
  }

  datatype Size = Size(value: bv8) {
    /** Whether frames of this side can be shown: every supported side
        divides the 240-pixel display evenly. */
    predicate IsSupported()
      ensures IsSupported() ==> value != 0 && 240 % value == 0 && value >= 60
    {
      value == 60 || value == 120 || value == 240
    }
  }

  datatype FrameRate = FrameRate(value: bv8) {

    /** Whether this rate may be played at frames of side `size`. */
    predicate IsSupported(size: bv8)
      ensures IsSupported(size) ==> 1 <= value <= 24
      ensures IsSupported(size) && size != 60 ==> value <= 12
    {
      if 1 <= value <= 6 || value == 8 then true
      else if value == 10 || value == 12 then size == 60 || size == 120
      else if value == 15 || value == 20 || value == 24 then size == 60
      else false
    }

    /** Snaps the rate to a supported one: first to a nearby display-friendly
        rate, then down to the ceiling for the frame size. The Rust code
        updates `self` in place; here the updated value is returned, and it
        equals `this` whenever the size is refused. */
    method MakeNearestSupported(size: Size) returns (result: Result<()>, newRate: FrameRate)
      ensures result.Ok? <==> size.IsSupported()
      ensures result.Err? ==> result.error == UnsupportedSize(size) && newRate == this
      ensures result.Ok? ==> newRate == FrameRate(NearestSupported(value, size.value))
      ensures result.Ok? ==> newRate.IsSupported(size.value)
      ensures result.Ok? && IsSupported(size.value) && (size.value == 240 ==> value <= 4) ==> newRate == this
    {
      var frameRate: bv8;
      if value == 0 {
        frameRate := 1;
      } else if value <= 6 {
        frameRate := value;
      } else if value <= 8 {
        frameRate := 8;
      } else if value <= 11 {
        frameRate := 10;
      } else if value <= 13 {
        frameRate := 12;
      } else if value <= 16 {
        frameRate := 15;
      } else if 19 <= value <= 21 {
        frameRate := 20;
      } else if 22 <= value <= 26 {
        frameRate := 24;
      } else {
        frameRate := 15;
      }
      if size.value == 60 {
      } else if size.value == 120 {
        if frameRate > 12 {
          frameRate := 12;
        }
      } else if size.value == 240 {
        if frameRate > 4 {
          frameRate := 4;
        }
      } else {
        return Err(UnsupportedSize(size)), this;
      }
      newRate := FrameRate(frameRate);
      result := Ok(());
    }
  }

  /** Distance between two byte values. */
  function Dist(a: bv8, b: bv8): bv8 {
    if a <= b then b - a else a - b
  }

  /** First stage of `make_nearest_supported`: any byte goes to a rate that is
      supported at the smallest size, and such rates are left alone. Up to 26
      the chosen rate is a nearest supported one (ties go either way), except
      for 18, which like every byte above 26 falls into the catch-all 15. */
  function Bucket(raw: bv8): (r: bv8)
    ensures FrameRate(r).IsSupported(60)
    ensures FrameRate(raw).IsSupported(60) ==> r == raw
    ensures raw <= 26 && raw != 18 ==>
      forall s: bv8 :: FrameRate(s).IsSupported(60) ==> Dist(r, raw) <= Dist(s, raw)
    ensures raw > 26 || raw == 18 ==> r == 15
  {
    if raw == 0 then 1
    else if raw <= 6 then raw
    else if raw <= 8 then 8
    else if raw <= 11 then 10
    else if raw <= 13 then 12
    else if raw <= 16 then 15
    else if 19 <= raw <= 21 then 20
    else if 22 <= raw <= 26 then 24
    else 15
  }

  /** Second stage: the bandwidth ceiling of the frame size. It never raises
      a rate, turns every bucketed rate into one the size supports, and
      leaves alone the rates the size supports, except 5, 6 and 8 at 240
      (see `CeilingStricterAt240`). */
  function Ceiling(rate: bv8, size: bv8): (r: bv8)
    requires Size(size).IsSupported()
    ensures r <= rate
    ensures FrameRate(rate).IsSupported(60) ==> FrameRate(r).IsSupported(size)
    ensures FrameRate(rate).IsSupported(size) && (size == 240 ==> rate <= 4) ==> r == rate
    ensures size == 60 ==> r == rate
    ensures size == 120 ==> r <= 12 && (rate > 12 ==> r == 12)
    ensures size == 240 ==> r <= 4 && (rate > 4 ==> r == 4)
  {
    if size == 120 && rate > 12 then 12
    else if size == 240 && rate > 4 then 4
    else rate
  }

  /** The rate `make_nearest_supported` stores for a supported size. */
  function NearestSupported(raw: bv8, size: bv8): (r: bv8)
    requires Size(size).IsSupported()
    ensures FrameRate(r).IsSupported(size)
    ensures FrameRate(raw).IsSupported(size) && (size == 240 ==> raw <= 4) ==> r == raw
    ensures size == 120 ==> r <= 12
    ensures size == 240 ==> r <= 4
    ensures size == 60 && raw <= 26 && raw != 18 ==>
      forall s: bv8 :: FrameRate(s).IsSupported(60) ==> Dist(r, raw) <= Dist(s, raw)
    ensures raw > 26 || raw == 18 ==> r == (if size == 60 then 15 else if size == 120 then 12 else 4)
  {
    Ceiling(Bucket(raw), size)
  }

  /** The fixed points of the snapping are the supported rates within the
      size's ceiling, so snapping twice is the same as snapping once. */
  lemma NearestSupportedIdempotent(raw: bv8, size: bv8)
    requires Size(size).IsSupported()
    ensures NearestSupported(raw, size) == raw <==>
      FrameRate(raw).IsSupported(size) && (size == 240 ==> raw <= 4)
    ensures NearestSupported(NearestSupported(raw, size), size) == NearestSupported(raw, size)
  {
  }

  /** The supported rates at each size, and the fact that a rate supported
      at a larger size is supported at every smaller one. */
  lemma SupportedRatesBySize(rate: bv8, size: bv8)
    ensures FrameRate(rate).IsSupported(size) ==> 1 <= rate <= 24
    ensures FrameRate(rate).IsSupported(240) <==> rate in {1, 2, 3, 4, 5, 6, 8}
    ensures FrameRate(rate).IsSupported(120) <==> rate in {1, 2, 3, 4, 5, 6, 8, 10, 12}
    ensures FrameRate(rate).IsSupported(60) <==> rate in {1, 2, 3, 4, 5, 6, 8, 10, 12, 15, 20, 24}
    ensures !Size(size).IsSupported() ==> (FrameRate(rate).IsSupported(size) <==> FrameRate(rate).IsSupported(240))
    ensures FrameRate(rate).IsSupported(240) ==> FrameRate(rate).IsSupported(120)
    ensures FrameRate(rate).IsSupported(120) ==> FrameRate(rate).IsSupported(60)
  {
  }

  /** `is_supported` accepts 5, 6 and 8 at size 240, but the snapping lowers
      every rate above 4 to 4 at that size: the two tables disagree there. */
  lemma CeilingStricterAt240(rate: bv8)
    ensures FrameRate(rate).IsSupported(240) && rate > 4 <==> rate in {5, 6, 8}
    ensures rate in {5, 6, 8} ==> NearestSupported(rate, 240) == 4
  {
  }

  /** Worked examples of the quantisation: 0->1, 7->8, 9->10, 13->12,
      16->15, 21->20, 26->24, 30->15; at 120 a rate bucketed to 15 becomes 12,
      at 240 a rate bucketed to 8 becomes 4. */
  lemma NearestSupportedExamples()
    ensures NearestSupported(0, 60) == 1 && NearestSupported(7, 60) == 8
    ensures NearestSupported(9, 60) == 10 && NearestSupported(13, 60) == 12
    ensures NearestSupported(16, 60) == 15 && NearestSupported(21, 60) == 20
    ensures NearestSupported(26, 60) == 24 && NearestSupported(30, 60) == 15
    ensures NearestSupported(17, 60) == 15 && NearestSupported(18, 60) == 15
    ensures NearestSupported(16, 120) == 12 && NearestSupported(7, 240) == 4
    ensures NearestSupported(11, 60) == 10 && NearestSupported(22, 60) == 24
  {
  }

  datatype Header = Header(
    magic: MagicBytes,
    version: Version,
    encoding: Encoding,
    size: Size,
    frameRate: FrameRate,
    nFrames: NumFrames)
  {
    /** The conditions `decode` checks; the frame count is not among them. */
    predicate IsValid() {
      && magic == MAGIC_CORRECT
      && version == VERSION_ZERO
      && (encoding == RGB565BE || encoding == RGB888)
      && size.IsSupported()
      && frameRate.IsSupported(size.value)
    }

    /** The header's bytes in field order, with no padding. */
    function AsBytes(): (bytes: seq<bv8>)
      ensures |bytes| == HEADER_SIZE
    {
      [magic.b0, magic.b1, version.value, encoding.value,
       size.value, frameRate.value, nFrames.b0, nFrames.b1]
    }

    /** Reinterprets 8 bytes as a header, field by field. */
    static function FromBytes(bytes: seq<bv8>): (h: Header)
      requires |bytes| == HEADER_SIZE
      ensures h.size.value == bytes[4] && h.frameRate.value == bytes[5]
    {
      Header(MagicBytes(bytes[0], bytes[1]), Version(bytes[2]), Encoding(bytes[3]),
             Size(bytes[4]), FrameRate(bytes[5]), NumFrames(bytes[6], bytes[7]))
    }

    /** Validates the header, returning the error of the first check that
        fails: magic, version, encoding, size, then frame rate. */
    static function Decode(bytes: seq<bv8>): (r: Result<Header>)
      requires |bytes| == HEADER_SIZE
      ensures r.Ok? <==> FromBytes(bytes).IsValid()
      ensures r.Ok? ==> r.value.AsBytes() == bytes
    {
      var header := FromBytes(bytes);
      if header.magic != MAGIC_CORRECT then Err(WrongMagicBytes(header.magic))
      else if header.version != VERSION_ZERO then Err(UnknownVersion(header.version))
      else if !(header.encoding == RGB565BE || header.encoding == RGB888) then
        Err(UnknownEncoding(header.encoding))
      else if !header.size.IsSupported() then Err(UnsupportedSize(header.size))
      else if !header.frameRate.IsSupported(header.size.value) then
        Err(UnsupportedFrameRate(header.frameRate))
      else Ok(header)
    }
  }

  /** Reading a header back from its bytes and writing it out again are
      inverse, in both directions. */
  lemma HeaderBytesRoundTrip(h: Header, bytes: seq<bv8>)
    requires |bytes| == HEADER_SIZE
    ensures Header.FromBytes(h.AsBytes()) == h
    ensures Header.FromBytes(bytes).AsBytes() == bytes
  {
    var b := Header.FromBytes(bytes).AsBytes();
    assert forall k | 0 <= k < HEADER_SIZE :: b[k] == bytes[k];
  }

  /** Every valid header survives encoding and decoding unchanged. */
  lemma DecodeAsBytes(h: Header)
    requires h.IsValid()
    ensures Header.Decode(h.AsBytes()) == Ok(h)
  {
    HeaderBytesRoundTrip(h, h.AsBytes());
  }

  /** `decode` reports the first check that fails, in the order magic,
      version, encoding, size, frame rate, whatever the later bytes hold. */
  lemma DecodeCheckOrder(b: seq<bv8>)
    requires |b| == HEADER_SIZE
    ensures var r := Header.Decode(b);
      var magicOk := b[0] == 0x4C && b[1] == 0x55;
      var versionOk := b[2] == 0;
      var encodingOk := b[3] <= 1;
      && (!magicOk ==> r == Err(WrongMagicBytes(MagicBytes(b[0], b[1]))))
      && (magicOk && !versionOk ==> r == Err(UnknownVersion(Version(b[2]))))
      && (magicOk && versionOk && !encodingOk ==> r == Err(UnknownEncoding(Encoding(b[3]))))
      && (magicOk && versionOk && encodingOk && !Size(b[4]).IsSupported() ==>
            r == Err(UnsupportedSize(Size(b[4]))))
      && (magicOk && versionOk && encodingOk && Size(b[4]).IsSupported()
            && !FrameRate(b[5]).IsSupported(b[4]) ==>
            r == Err(UnsupportedFrameRate(FrameRate(b[5]))))
      && (magicOk && versionOk && encodingOk && Size(b[4]).IsSupported()
            && FrameRate(b[5]).IsSupported(b[4]) ==>
            r == Ok(Header.FromBytes(b)))
  {
  }

  /** Changing one byte of a valid header to a value its field does not
      allow yields that field's error; the frame-count bytes are never
      checked. */
  lemma DecodeRejectsMutation(h: Header, i: nat, v: bv8)
    requires h.IsValid() && i < HEADER_SIZE
    ensures var b := h.AsBytes()[i := v];
      && (i == 0 && v != 0x4C ==> Header.Decode(b) == Err(WrongMagicBytes(MagicBytes(v, 0x55))))
      && (i == 1 && v != 0x55 ==> Header.Decode(b) == Err(WrongMagicBytes(MagicBytes(0x4C, v))))
      && (i == 2 && v != 0 ==> Header.Decode(b) == Err(UnknownVersion(Version(v))))
      && (i == 3 && v > 1 ==> Header.Decode(b) == Err(UnknownEncoding(Encoding(v))))
      && (i == 4 && !Size(v).IsSupported() ==> Header.Decode(b) == Err(UnsupportedSize(Size(v))))
      && (i == 5 && !FrameRate(v).IsSupported(h.size.value) ==>
            Header.Decode(b) == Err(UnsupportedFrameRate(FrameRate(v))))
      && (i >= 6 ==> Header.Decode(b).Ok?)
  {
  }

  /** A packed RGB565 pixel in native (machine) order. */
  datatype Rgb565NE = Rgb565NE(raw: bv16) {

    /** Packs components into bits 15-11, 10-5 and 4-0. Components are not
        clamped: one out of range spills into its neighbour's bits. */
    static function Pack565(r5: bv8, g6: bv8, b5: bv8): (p: Rgb565NE)
      ensures r5 <= MAX_5 && g6 <= MAX_6 && b5 <= MAX_5 ==>
        p.raw == 2048 * (r5 as bv16) + 32 * (g6 as bv16) + (b5 as bv16)
    {
      Rgb565NE(((r5 as bv16) << 11) | ((g6 as bv16) << 5) | (b5 as bv16))
    }

    /** Separates the three components, without widening them to 8 bits. */
    function Unpack565(): (rgb: seq<bv8>)
      ensures |rgb| == 3 && rgb[0] <= MAX_5 && rgb[1] <= MAX_6 && rgb[2] <= MAX_5
    {
      [((raw >> 11) & 0x1F) as bv8, ((raw >> 5) & 0x3F) as bv8, (raw & 0x1F) as bv8]
    }

    /** The big-endian byte pair: the high byte first. */
    function ToBe(): (be: Rgb565BE)
      ensures 256 * (be.b0 as bv16) + (be.b1 as bv16) == raw
    {
      Rgb565BE((raw >> 8) as bv8, (raw & 0xFF) as bv8)
    }
  }

  /** A pixel as the two bytes stored in the file and sent to the display,
      most significant byte first. */
  datatype Rgb565BE = Rgb565BE(b0: bv8, b1: bv8) {

    function ToNe(): (ne: Rgb565NE)
      ensures ne.raw / 256 == b0 as bv16 && ne.raw % 256 == b1 as bv16
    {
      Rgb565NE(((b0 as bv16) << 8) | (b1 as bv16))
    }
  }

  /** Packing and unpacking are inverse on in-range components, and every
      16-bit pixel is the packing of its own components. */
  lemma PackUnpackRoundTrip(r5: bv8, g6: bv8, b5: bv8, p: Rgb565NE)
    ensures r5 <= MAX_5 && g6 <= MAX_6 && b5 <= MAX_5 ==>
      Rgb565NE.Pack565(r5, g6, b5).Unpack565() == [r5, g6, b5]
    ensures var c := p.Unpack565(); Rgb565NE.Pack565(c[0], c[1], c[2]) == p
  {
  }

  /** Conversions between native and big-endian order are inverse. */
  lemma EndianRoundTrip(p: Rgb565NE, be: Rgb565BE)
    ensures p.ToBe().ToNe() == p
    ensures be.ToNe().ToBe() == be
  {
  }
}
