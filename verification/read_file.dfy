/** Streaming frame loaders: each reads one frame of a 60, 120 or 240 pixel
    square animation from a byte stream, a batch of whole rows at a time
    through a small scratch buffer, and writes it into the 240x240
    framebuffer, replicating each source pixel into a 4x4, 2x2 or 1x1 block. */
module Loader {
  import opened LuluuEnc

  /** Bytes in the scratch buffer the loaders read into. */
  const FILE_BUFFER_SIZE: nat := 4096
  /** Side of the framebuffer, in pixels. */
  const DST_SIZE: nat := 240
  /** Pixels in the framebuffer, addressed `x + DST_SIZE * y`. */
  const FB_PIXELS: nat := 57600

  /** The byte stream a frame is read from: the file's contents and a
      cursor into them. */
  class ReadFile {
    const data: seq<bv8>
    var pos: nat

    ghost predicate Valid()
      reads this
    {
      pos <= |data|
    }

    constructor (data: seq<bv8>)
      ensures Valid() && this.data == data && pos == 0
    {
      this.data := data;
      pos := 0;
    }

    /** Reads up to `len` bytes from the cursor into `buffer[..len]` and
        advances the cursor past them; fewer bytes come back only at the end
        of the data. */
    method Read(buffer: array<bv8>, len: nat) returns (n: nat)
      requires Valid() && len <= buffer.Length
      modifies this, buffer
      ensures Valid()
      ensures n == if old(pos) + len <= |data| then len else |data| - old(pos)
      ensures pos == old(pos) + n
      ensures buffer[..n] == data[old(pos)..pos]
      ensures buffer[n..] == old(buffer[n..])
    {
      n := if pos + len <= |data| then len else |data| - pos;
      forall k | 0 <= k < n {
        buffer[k] := data[pos + k];
      }
      pos := pos + n;
    }

    /** Moves the cursor to `offset` bytes from the start of the data; an
        offset past the end is refused and leaves the cursor where it was. */
    method SeekFromStart(offset: nat) returns (ok: bool)
      requires Valid()
      modifies this
      ensures Valid()
      ensures ok <==> offset <= |data|
      ensures pos == if ok then offset else old(pos)
    {
      ok := offset <= |data|;
      if ok {
        pos := offset;
      }
    }
  }

  /** The batch layout of one loader: rows of the source read per batch and
      the factor each source pixel is replicated by. */
  datatype BatchGeometry = BatchGeometry(srcSize: nat, scale: nat, srcRowsPerBatch: nat) {
    function PixelsPerBatch(): nat { srcRowsPerBatch * srcSize }
    function BytesPerBatch(): nat { PixelsPerBatch() * 2 }
    function Batches(): nat requires srcRowsPerBatch > 0 { srcSize / srcRowsPerBatch }
    function DstRowsPerBatch(): nat { srcRowsPerBatch * scale }
  }

  /** The geometries of the three loaders: 60-pixel frames in batches of 30
      rows scaled 4x, 120-pixel frames in batches of 15 rows scaled 2x, and
      240-pixel frames in batches of 8 rows copied unscaled. */
  const G60 := BatchGeometry(60, 4, 30)
  const G120 := BatchGeometry(120, 2, 15)
  const G240 := BatchGeometry(240, 1, 8)

  /** The geometry of the loader for frames of side `size`, if there is one. */
  function GeometryFor(size: Size): (g: Option<BatchGeometry>)
    ensures g.Some? <==> size.IsSupported()
    ensures g.Some? ==> g.value.srcSize == size.value as nat
  {
    if size.value == 60 then Some(G60)
    else if size.value == 120 then Some(G120)
    else if size.value == 240 then Some(G240)
    else None
  }

  datatype Option<T> = None | Some(value: T)

  /** Every supported size has a loader whose batches fit the scratch
      buffer, consist of whole source rows, read the frame exactly once, and
      together cover the 240 destination rows. */
  lemma BatchGeometrySafe(size: Size)
    requires size.IsSupported()
    ensures var g := GeometryFor(size).value;
      && g.srcRowsPerBatch > 0
      && g.BytesPerBatch() <= FILE_BUFFER_SIZE
      && g.BytesPerBatch() == (if size.value == 240 then 3840 else 3600)
      && g.Batches() * g.srcRowsPerBatch == g.srcSize
      && g.Batches() * g.BytesPerBatch() == g.srcSize * g.srcSize * 2
      && g.srcSize * g.scale == DST_SIZE
      && g.Batches() * g.DstRowsPerBatch() == DST_SIZE
  {
  }

  /** Framebuffer row that iteration (`batch`, `srcYRelative`,
      `dstYOffset`) of the loader with geometry `g` writes. */
  function DstRow(g: BatchGeometry, batch: nat, srcYRelative: nat, dstYOffset: nat): nat
  {
    batch * g.DstRowsPerBatch() + srcYRelative * g.scale + dstYOffset
  }

  /** Every framebuffer row is written by some iteration of a loader's
      three nested loops. */
  lemma EveryRowWritten(g: BatchGeometry, dstY: nat)
    requires g == G60 || g == G120 || g == G240
    requires dstY < DST_SIZE
    ensures exists batch: nat, srcYRelative: nat, dstYOffset: nat ::
      && batch < g.Batches() && srcYRelative < g.srcRowsPerBatch && dstYOffset < g.scale
      && DstRow(g, batch, srcYRelative, dstYOffset) == dstY
  {
    if g == G60 {
      var batch, rest := dstY / 120, dstY % 120;
      assert g.Batches() == 2 && g.DstRowsPerBatch() == 120 && g.scale == 4;
      assert DstRow(g, batch, rest / 4, rest % 4) == 120 * batch + 4 * (rest / 4) + rest % 4 == dstY;
    } else if g == G120 {
      var batch, rest := dstY / 30, dstY % 30;
      assert g.Batches() == 8 && g.DstRowsPerBatch() == 30 && g.scale == 2;
      assert DstRow(g, batch, rest / 2, rest % 2) == 30 * batch + 2 * (rest / 2) + rest % 2 == dstY;
    } else {
      var batch, rest := dstY / 8, dstY % 8;
      assert g.Batches() == 30 && g.DstRowsPerBatch() == 8 && g.scale == 1;
      assert DstRow(g, batch, rest, 0) == 8 * batch + rest == dstY;
    }
  }

  /** Every iteration of a loader's loops writes a row inside the
      framebuffer, and no two iterations write the same row. */
  lemma EachRowWrittenOnce(g: BatchGeometry, batch: nat, srcYRelative: nat, dstYOffset: nat,
                           batch': nat, srcYRelative': nat, dstYOffset': nat)
    requires g == G60 || g == G120 || g == G240
    requires batch < g.Batches() && srcYRelative < g.srcRowsPerBatch && dstYOffset < g.scale
    requires batch' < g.Batches() && srcYRelative' < g.srcRowsPerBatch && dstYOffset' < g.scale
    ensures DstRow(g, batch, srcYRelative, dstYOffset) < DST_SIZE
    ensures DstRow(g, batch, srcYRelative, dstYOffset) == DstRow(g, batch', srcYRelative', dstYOffset') ==>
      batch == batch' && srcYRelative == srcYRelative' && dstYOffset == dstYOffset'
  {
    if g == G60 {
      assert g.Batches() == 2 && g.DstRowsPerBatch() == 120 && g.scale == 4;
    } else if g == G120 {
      assert g.Batches() == 8 && g.DstRowsPerBatch() == 30 && g.scale == 2;
    } else {
      assert g.Batches() == 30 && g.DstRowsPerBatch() == 8 && g.scale == 1;
    }
  }

  /** The `k`-th two-byte pixel of `bytes`. */
  function PixelAt(bytes: seq<bv8>, k: nat): (p: Rgb565BE)
    requires 2 * k + 1 < |bytes|
    ensures p.b0 == bytes[2 * k] && p.b1 == bytes[2 * k + 1]
  {
    Rgb565BE(bytes[2 * k], bytes[2 * k + 1])
  }

  /** `bytes` viewed as consecutive two-byte pixels. */
  function FramePixels(bytes: seq<bv8>): (px: seq<Rgb565BE>)
    ensures |px| == |bytes| / 2
    ensures forall k :: 0 <= k < |px| ==> px[k].b0 == bytes[2 * k] && px[k].b1 == bytes[2 * k + 1]
  {
    seq(|bytes| / 2, k requires 0 <= k < |bytes| / 2 => PixelAt(bytes, k))
  }

  /** Replication factor that takes a `size`-pixel side to 240. */
  function Scale(size: nat): (s: nat)
    requires size == 60 || size == 120 || size == 240
    ensures s * size == DST_SIZE
  {
    if size == 60 then 4 else if size == 120 then 2 else 1
  }

  /** Index, in a `size` x `size` frame, of the source pixel that lands on
      framebuffer column `x` and row `y`. */
  function SourceIndex(size: nat, x: nat, y: nat): (k: nat)
    requires size == 60 || size == 120 || size == 240
    requires x < DST_SIZE && y < DST_SIZE
    ensures k < size * size
  {
    var s := Scale(size);
    assert x / s < size && y / s < size by {
      if size == 60 { } else if size == 120 { } else { }
    }
    assert size * (y / s) <= size * (size - 1) by {
      if size == 60 { } else if size == 120 { } else { }
    }
    x / s + size * (y / s)
  }

  /** The framebuffer that nearest-neighbour upscaling of `src` produces. */
  function Upscale(src: seq<Rgb565BE>, size: nat): (fb: seq<Rgb565BE>)
    requires size == 60 || size == 120 || size == 240
    requires |src| == size * size
    ensures |fb| == FB_PIXELS
  {
    seq(FB_PIXELS, i requires 0 <= i < FB_PIXELS =>
      src[SourceIndex(size, i % DST_SIZE, i / DST_SIZE)])
  }

  /** Pixel (x, y) of the upscaled frame is source pixel (x / s, y / s),
      where s is the replication factor. */
  lemma UpscaleAt(src: seq<Rgb565BE>, size: nat, x: nat, y: nat)
    requires size == 60 || size == 120 || size == 240
    requires |src| == size * size
    requires x < DST_SIZE && y < DST_SIZE
    ensures x + DST_SIZE * y < FB_PIXELS
    ensures Upscale(src, size)[x + DST_SIZE * y] == src[x / Scale(size) + size * (y / Scale(size))]
  {
    var i := x + DST_SIZE * y;
    assert i % DST_SIZE == x && i / DST_SIZE == y;
  }

  /** At full size the upscaling is the identity. */
  lemma UpscaleIdentity(src: seq<Rgb565BE>)
    requires |src| == FB_PIXELS
    ensures Upscale(src, DST_SIZE) == src
  {
    var fb := Upscale(src, DST_SIZE);
    forall i | 0 <= i < FB_PIXELS ensures fb[i] == src[i] {
      assert i % DST_SIZE + DST_SIZE * (i / DST_SIZE) == i;
    }
  }

  /** Framebuffer rows [0, rows) hold the upscaling of `src`. */
  ghost predicate RowsDone(fb: seq<Rgb565BE>, src: seq<Rgb565BE>, size: nat, rows: nat)
    requires size == 60 || size == 120 || size == 240
    requires |src| == size * size && |fb| == FB_PIXELS && rows <= DST_SIZE
  {
    forall i :: 0 <= i < DST_SIZE * rows ==> fb[i] == src[SourceIndex(size, i % DST_SIZE, i / DST_SIZE)]
  }

  /** Extends `RowsDone` by one row: earlier rows kept their pixels and row
      `rows` now holds its upscaled source pixels. */
  lemma RowsDoneExtend(before: seq<Rgb565BE>, after: seq<Rgb565BE>, src: seq<Rgb565BE>, size: nat, rows: nat)
    requires size == 60 || size == 120 || size == 240
    requires |src| == size * size && |before| == FB_PIXELS && |after| == FB_PIXELS && rows < DST_SIZE
    requires RowsDone(before, src, size, rows)
    requires forall i :: 0 <= i < DST_SIZE * rows ==> after[i] == before[i]
    requires forall i :: DST_SIZE * rows <= i < DST_SIZE * rows + DST_SIZE ==>
      after[i] == src[SourceIndex(size, i % DST_SIZE, i / DST_SIZE)]
    ensures RowsDone(after, src, size, rows + 1)
  {
  }

  /** A pixel of the scratch buffer, after a batch was read into it, is the
      pixel at the same place in the frame's bytes. */
  lemma ScratchPixel(data: seq<bv8>, start: nat, frameBytes: nat, scratch: seq<bv8>,
                     bytes: nat, base: nat, p: nat)
    requires start + frameBytes <= |data|
    requires bytes <= |scratch| && 2 * base + bytes <= frameBytes
    requires scratch[..bytes] == data[start + 2 * base..start + 2 * base + bytes]
    requires 2 * p + 1 < bytes
    ensures base + p < frameBytes / 2
    ensures PixelAt(scratch, p) == FramePixels(data[start..start + frameBytes])[base + p]
  {
    var frame := data[start..start + frameBytes];
    assert scratch[2 * p] == scratch[..bytes][2 * p] == frame[2 * (base + p)];
    assert scratch[2 * p + 1] == scratch[..bytes][2 * p + 1] == frame[2 * (base + p) + 1];
  }

  /** The `pixels` pixels at the front of `scratch` are the pixels of `src`
      from `base` on. */
  ghost predicate BatchInScratch(scratch: seq<bv8>, src: seq<Rgb565BE>, base: nat, pixels: nat)
    requires 2 * pixels <= |scratch| && base + pixels <= |src|
  {
    forall p :: 0 <= p < pixels ==> PixelAt(scratch, p) == src[base + p]
  }

  /** After a batch of `2 * pixels` bytes, starting at pixel `base` of the
      frame, was read into the scratch buffer, the buffer holds those frame
      pixels. */
  lemma ScratchBatch(data: seq<bv8>, start: nat, frameBytes: nat, scratch: seq<bv8>,
                     base: nat, pixels: nat)
    requires start + frameBytes <= |data|
    requires 2 * pixels <= |scratch| && 2 * (base + pixels) <= frameBytes
    requires scratch[..2 * pixels] == data[start + 2 * base..start + 2 * base + 2 * pixels]
    ensures base + pixels <= frameBytes / 2
    ensures BatchInScratch(scratch, FramePixels(data[start..start + frameBytes]), base, pixels)
  {
    forall p | 0 <= p < pixels
      ensures PixelAt(scratch, p) == FramePixels(data[start..start + frameBytes])[base + p]
    {
      ScratchPixel(data, start, frameBytes, scratch, 2 * pixels, base, p);
    }
  }

  /** Framebuffer index `k` in row `y` lies in column `k - 240 * y`. */
  lemma RowIndex(k: nat, y: nat)
    requires DST_SIZE * y <= k < DST_SIZE * y + DST_SIZE
    ensures k % DST_SIZE == k - DST_SIZE * y && k / DST_SIZE == y
  {
  }

  /** In a 60-pixel frame, destination row `120 * batch + 4 * srcYRelative +
      dstYOffset` reads source row `srcYRelative` of batch `batch`, whose
      first pixel is frame pixel `1800 * batch`. */
  lemma SourceIndexInBatch60(batch: nat, srcYRelative: nat, dstYOffset: nat, x: nat)
    requires batch < 2 && srcYRelative < 30 && dstYOffset < 4 && x < DST_SIZE
    ensures SourceIndex(60, x, 120 * batch + 4 * srcYRelative + dstYOffset) ==
      1800 * batch + (60 * srcYRelative + SrcX(x, 60))
  {
    assert (120 * batch + 4 * srcYRelative + dstYOffset) / 4 == 30 * batch + srcYRelative;
  }

  /** The same for a 120-pixel frame: destination row `30 * batch + 2 *
      srcYRelative + dstYOffset` reads source row `srcYRelative` of batch
      `batch`. */
  lemma SourceIndexInBatch120(batch: nat, srcYRelative: nat, dstYOffset: nat, x: nat)
    requires batch < 8 && srcYRelative < 15 && dstYOffset < 2 && x < DST_SIZE
    ensures SourceIndex(120, x, 30 * batch + 2 * srcYRelative + dstYOffset) ==
      1800 * batch + (120 * srcYRelative + SrcX(x, 120))
  {
    assert (30 * batch + 2 * srcYRelative + dstYOffset) / 2 == 15 * batch + srcYRelative;
  }

  /** The same for a 240-pixel frame: destination row `8 * batch +
      yRelative` is source row `yRelative` of batch `batch`. */
  lemma SourceIndexInBatch240(batch: nat, yRelative: nat, x: nat)
    requires batch < 30 && yRelative < 8 && x < DST_SIZE
    ensures SourceIndex(240, x, 8 * batch + yRelative) == 1920 * batch + (240 * yRelative + SrcX(x, 240))
  {
  }

  /** A framebuffer pixel of row `120 * batch + 4 * srcYRelative +
      dstYOffset` that holds the scratch pixel its column replicates holds
      the source pixel the upscaling puts there, when the scratch buffer
      holds batch `batch` of the 60-pixel frame `src`. */
  lemma UpscaledPixel60(src: seq<Rgb565BE>, scratch: seq<bv8>, pixel: Rgb565BE,
                        batch: nat, srcYRelative: nat, dstYOffset: nat, dstY: nat, k: nat)
    requires |src| == 3600 && 3600 <= |scratch|
    requires batch < 2 && srcYRelative < 30 && dstYOffset < 4
    requires BatchInScratch(scratch, src, 1800 * batch, 1800)
    requires dstY == 120 * batch + 4 * srcYRelative + dstYOffset
    requires DST_SIZE * dstY <= k < DST_SIZE * dstY + DST_SIZE
    requires pixel == PixelAt(scratch, 60 * srcYRelative + SrcX(k - DST_SIZE * dstY, 60))
    ensures pixel == src[SourceIndex(60, k % DST_SIZE, k / DST_SIZE)]
  {
    var x := k - DST_SIZE * dstY;
    var p := 60 * srcYRelative + SrcX(x, 60);
    assert SourceIndex(60, k % DST_SIZE, k / DST_SIZE) == 1800 * batch + p by {
      RowIndex(k, dstY);
      SourceIndexInBatch60(batch, srcYRelative, dstYOffset, x);
    }
    assert PixelAt(scratch, p) == src[1800 * batch + p];
  }

  /** The same for a 120-pixel frame. */
  lemma UpscaledPixel120(src: seq<Rgb565BE>, scratch: seq<bv8>, pixel: Rgb565BE,
                         batch: nat, srcYRelative: nat, dstYOffset: nat, dstY: nat, k: nat)
    requires |src| == 14400 && 3600 <= |scratch|
    requires batch < 8 && srcYRelative < 15 && dstYOffset < 2
    requires BatchInScratch(scratch, src, 1800 * batch, 1800)
    requires dstY == 30 * batch + 2 * srcYRelative + dstYOffset
    requires DST_SIZE * dstY <= k < DST_SIZE * dstY + DST_SIZE
    requires pixel == PixelAt(scratch, 120 * srcYRelative + SrcX(k - DST_SIZE * dstY, 120))
    ensures pixel == src[SourceIndex(120, k % DST_SIZE, k / DST_SIZE)]
  {
    var x := k - DST_SIZE * dstY;
    var p := 120 * srcYRelative + SrcX(x, 120);
    assert SourceIndex(120, k % DST_SIZE, k / DST_SIZE) == 1800 * batch + p by {
      RowIndex(k, dstY);
      SourceIndexInBatch120(batch, srcYRelative, dstYOffset, x);
    }
    assert PixelAt(scratch, p) == src[1800 * batch + p];
  }

  /** The same for a copied 240-pixel row. */
  lemma CopiedPixel240(src: seq<Rgb565BE>, scratch: seq<bv8>, pixel: Rgb565BE,
                       batch: nat, yRelative: nat, dstY: nat, k: nat)
    requires |src| == FB_PIXELS && 3840 <= |scratch|
    requires batch < 30 && yRelative < 8
    requires BatchInScratch(scratch, src, 1920 * batch, 1920)
    requires dstY == 8 * batch + yRelative
    requires DST_SIZE * dstY <= k < DST_SIZE * dstY + DST_SIZE
    requires pixel == PixelAt(scratch, 240 * yRelative + SrcX(k - DST_SIZE * dstY, 240))
    ensures pixel == src[SourceIndex(240, k % DST_SIZE, k / DST_SIZE)]
  {
    var x := k - DST_SIZE * dstY;
    var p := 240 * yRelative + SrcX(x, 240);
    assert SourceIndex(240, k % DST_SIZE, k / DST_SIZE) == 1920 * batch + p by {
      RowIndex(k, dstY);
      SourceIndexInBatch240(batch, yRelative, x);
    }
    assert PixelAt(scratch, p) == src[1920 * batch + p];
  }

  /** Row `120 * batch + 4 * srcYRelative + dstYOffset` of a 60-pixel
      frame, written from the scratch buffer that holds the frame's batch
      `batch`, completes one more upscaled row. */
  lemma UpscaledRowDone60(src: seq<Rgb565BE>, scratch: seq<bv8>,
                          before: seq<Rgb565BE>, after: seq<Rgb565BE>,
                          batch: nat, srcYRelative: nat, dstYOffset: nat, dstY: nat)
    requires |src| == 3600 && 3600 <= |scratch|
    requires batch < 2 && srcYRelative < 30 && dstYOffset < 4
    requires BatchInScratch(scratch, src, 1800 * batch, 1800)
    requires |before| == FB_PIXELS && |after| == FB_PIXELS
    requires dstY == 120 * batch + 4 * srcYRelative + dstYOffset
    requires RowsDone(before, src, 60, dstY)
    requires RowWritten(before, after, scratch, dstY, 60 * srcYRelative, 60)
    ensures RowsDone(after, src, 60, dstY + 1)
  {
    forall k | DST_SIZE * dstY <= k < DST_SIZE * dstY + DST_SIZE
      ensures after[k] == src[SourceIndex(60, k % DST_SIZE, k / DST_SIZE)]
    {
      UpscaledPixel60(src, scratch, after[k], batch, srcYRelative, dstYOffset, dstY, k);
    }
    RowsDoneExtend(before, after, src, 60, dstY);
  }

  /** The same for a 120-pixel frame, in batches of 15 rows. */
  lemma UpscaledRowDone120(src: seq<Rgb565BE>, scratch: seq<bv8>,
                           before: seq<Rgb565BE>, after: seq<Rgb565BE>,
                           batch: nat, srcYRelative: nat, dstYOffset: nat, dstY: nat)
    requires |src| == 14400 && 3600 <= |scratch|
    requires batch < 8 && srcYRelative < 15 && dstYOffset < 2
    requires BatchInScratch(scratch, src, 1800 * batch, 1800)
    requires |before| == FB_PIXELS && |after| == FB_PIXELS
    requires dstY == 30 * batch + 2 * srcYRelative + dstYOffset
    requires RowsDone(before, src, 120, dstY)
    requires RowWritten(before, after, scratch, dstY, 120 * srcYRelative, 120)
    ensures RowsDone(after, src, 120, dstY + 1)
  {
    forall k | DST_SIZE * dstY <= k < DST_SIZE * dstY + DST_SIZE
      ensures after[k] == src[SourceIndex(120, k % DST_SIZE, k / DST_SIZE)]
    {
      UpscaledPixel120(src, scratch, after[k], batch, srcYRelative, dstYOffset, dstY, k);
    }
    RowsDoneExtend(before, after, src, 120, dstY);
  }

  /** Row `8 * batch + yRelative` of a 240-pixel frame, copied from the
      scratch buffer that holds the frame's batch `batch`, completes one
      more row of the frame. */
  lemma CopiedRowDone240(src: seq<Rgb565BE>, scratch: seq<bv8>,
                         before: seq<Rgb565BE>, after: seq<Rgb565BE>,
                         batch: nat, yRelative: nat, dstY: nat)
    requires |src| == FB_PIXELS && 3840 <= |scratch|
    requires batch < 30 && yRelative < 8
    requires BatchInScratch(scratch, src, 1920 * batch, 1920)
    requires |before| == FB_PIXELS && |after| == FB_PIXELS
    requires dstY == 8 * batch + yRelative
    requires RowsDone(before, src, 240, dstY)
    requires RowWritten(before, after, scratch, dstY, 240 * yRelative, 240)
    ensures RowsDone(after, src, 240, dstY + 1)
  {
    forall k | DST_SIZE * dstY <= k < DST_SIZE * dstY + DST_SIZE
      ensures after[k] == src[SourceIndex(240, k % DST_SIZE, k / DST_SIZE)]
    {
      CopiedPixel240(src, scratch, after[k], batch, yRelative, dstY, k);
    }
    RowsDoneExtend(before, after, src, 240, dstY);
  }

  /** Source column that destination column `dstX` replicates, for a
      source row of `srcSize` pixels. */
  function SrcX(dstX: nat, srcSize: nat): (srcX: nat)
    requires dstX < DST_SIZE && (srcSize == 60 || srcSize == 120 || srcSize == 240)
    ensures srcX < srcSize
    ensures srcSize == 60 ==> 4 * srcX <= dstX < 4 * srcX + 4
    ensures srcSize == 120 ==> 2 * srcX <= dstX < 2 * srcX + 2
    ensures srcSize == 240 ==> srcX == dstX
  {
    if srcSize == 60 then dstX / 4 else if srcSize == 120 then dstX / 2 else dstX
  }

  /** `after` is the framebuffer `before` with row `dstY` rewritten from the
      `srcSize`-pixel source row that starts at pixel `srcRowStart` of
      `scratch`; every other pixel is unchanged. */
  ghost predicate RowWritten(before: seq<Rgb565BE>, after: seq<Rgb565BE>, scratch: seq<bv8>,
                             dstY: nat, srcRowStart: nat, srcSize: nat)
    requires |before| == FB_PIXELS && |after| == FB_PIXELS && dstY < DST_SIZE
    requires srcSize == 60 || srcSize == 120 || srcSize == 240
    requires 2 * (srcRowStart + srcSize) <= |scratch|
  {
    && (forall k :: 0 <= k < FB_PIXELS && !(DST_SIZE * dstY <= k < DST_SIZE * dstY + DST_SIZE) ==>
          after[k] == before[k])
    && (forall k :: DST_SIZE * dstY <= k < DST_SIZE * dstY + DST_SIZE ==>
          after[k] == PixelAt(scratch, srcRowStart + SrcX(k - DST_SIZE * dstY, srcSize)))
  }

  /** Framebuffer row `dstY` of `fb` holds the `srcSize`-pixel source row
      that starts at pixel `srcRowStart` of `scratch`, each pixel repeated
      240 / `srcSize` times. */
  ghost predicate RowFrom(fb: seq<Rgb565BE>, scratch: seq<bv8>, dstY: nat, srcRowStart: nat, srcSize: nat)
    requires |fb| == FB_PIXELS && dstY < DST_SIZE
    requires srcSize == 60 || srcSize == 120 || srcSize == 240
    requires 2 * (srcRowStart + srcSize) <= |scratch|
  {
    forall x :: 0 <= x < DST_SIZE ==> fb[DST_SIZE * dstY + x] == PixelAt(scratch, srcRowStart + SrcX(x, srcSize))
  }

  /** The first `done` iterations of the row loops of 60-pixel batch
      `batch` (source row `srcYRelative`, copy `dstYOffset`, in that order)
      left their rows holding scratch row `srcYRelative`. */
  ghost predicate RowsFromScratch60(fb: seq<Rgb565BE>, scratch: seq<bv8>, batch: nat, done: nat)
    requires |fb| == FB_PIXELS && 3600 <= |scratch| && batch < 2
  {
    forall srcYRelative: nat, dstYOffset: nat :: srcYRelative < 30 && dstYOffset < 4 && 4 * srcYRelative + dstYOffset < done ==>
      RowFrom(fb, scratch, DstRow(G60, batch, srcYRelative, dstYOffset), 60 * srcYRelative, 60)
  }

  /** Writing the row of iteration (`srcYRelative`, `dstYOffset`) of a
      60-pixel batch adds it to the rows done, and keeps the earlier ones. */
  lemma RowsFromScratch60Step(before: seq<Rgb565BE>, after: seq<Rgb565BE>, scratch: seq<bv8>,
                              batch: nat, srcYRelative: nat, dstYOffset: nat, dstY: nat)
    requires |before| == FB_PIXELS && |after| == FB_PIXELS && 3600 <= |scratch|
    requires batch < 2 && srcYRelative < 30 && dstYOffset < 4
    requires dstY == DstRow(G60, batch, srcYRelative, dstYOffset) && dstY < DST_SIZE
    requires RowsFromScratch60(before, scratch, batch, 4 * srcYRelative + dstYOffset)
    requires RowWritten(before, after, scratch, dstY, 60 * srcYRelative, 60)
    ensures RowsFromScratch60(after, scratch, batch, 4 * srcYRelative + dstYOffset + 1)
  {
    assert G60.scale == 4 && G60.DstRowsPerBatch() == 120;
    forall sy: nat, o: nat | sy < 30 && o < 4 && 4 * sy + o < 4 * srcYRelative + dstYOffset + 1
      ensures RowFrom(after, scratch, DstRow(G60, batch, sy, o), 60 * sy, 60)
    {
      var y := DstRow(G60, batch, sy, o);
      assert y == 120 * batch + 4 * sy + o && dstY == 120 * batch + 4 * srcYRelative + dstYOffset;
      if 4 * sy + o == 4 * srcYRelative + dstYOffset {
        assert sy == srcYRelative;
        forall x | 0 <= x < DST_SIZE
          ensures after[DST_SIZE * y + x] == PixelAt(scratch, 60 * sy + SrcX(x, 60))
        {
          assert DST_SIZE * y + x - DST_SIZE * dstY == x;
        }
      } else {
        // An earlier iteration's row lies wholly below row `dstY`.
        assert DST_SIZE * y + DST_SIZE <= DST_SIZE * dstY;
        assert RowFrom(before, scratch, y, 60 * sy, 60);
      }
    }
  }


  /** The first `done` iterations of the row loops of 120-pixel batch
      `batch` (source row `srcYRelative`, copy `dstYOffset`, in that order)
      left their rows holding scratch row `srcYRelative`. */
  ghost predicate RowsFromScratch120(fb: seq<Rgb565BE>, scratch: seq<bv8>, batch: nat, done: nat)
    requires |fb| == FB_PIXELS && 3600 <= |scratch| && batch < 8
  {
    forall srcYRelative: nat, dstYOffset: nat :: srcYRelative < 15 && dstYOffset < 2 && 2 * srcYRelative + dstYOffset < done ==>
      RowFrom(fb, scratch, DstRow(G120, batch, srcYRelative, dstYOffset), 120 * srcYRelative, 120)
  }

  /** Writing the row of iteration (`srcYRelative`, `dstYOffset`) of a
      120-pixel batch adds it to the rows done, and keeps the earlier ones. */
  lemma RowsFromScratch120Step(before: seq<Rgb565BE>, after: seq<Rgb565BE>, scratch: seq<bv8>,
                              batch: nat, srcYRelative: nat, dstYOffset: nat, dstY: nat)
    requires |before| == FB_PIXELS && |after| == FB_PIXELS && 3600 <= |scratch|
    requires batch < 8 && srcYRelative < 15 && dstYOffset < 2
    requires dstY == DstRow(G120, batch, srcYRelative, dstYOffset) && dstY < DST_SIZE
    requires RowsFromScratch120(before, scratch, batch, 2 * srcYRelative + dstYOffset)
    requires RowWritten(before, after, scratch, dstY, 120 * srcYRelative, 120)
    ensures RowsFromScratch120(after, scratch, batch, 2 * srcYRelative + dstYOffset + 1)
  {
    assert G120.scale == 2 && G120.DstRowsPerBatch() == 30;
    forall sy: nat, o: nat | sy < 15 && o < 2 && 2 * sy + o < 2 * srcYRelative + dstYOffset + 1
      ensures RowFrom(after, scratch, DstRow(G120, batch, sy, o), 120 * sy, 120)
    {
      var y := DstRow(G120, batch, sy, o);
      assert y == 30 * batch + 2 * sy + o && dstY == 30 * batch + 2 * srcYRelative + dstYOffset;
      if 2 * sy + o == 2 * srcYRelative + dstYOffset {
        assert sy == srcYRelative;
        forall x | 0 <= x < DST_SIZE
          ensures after[DST_SIZE * y + x] == PixelAt(scratch, 120 * sy + SrcX(x, 120))
        {
          assert DST_SIZE * y + x - DST_SIZE * dstY == x;
        }
      } else {
        // An earlier iteration's row lies wholly below row `dstY`.
        assert DST_SIZE * y + DST_SIZE <= DST_SIZE * dstY;
        assert RowFrom(before, scratch, y, 120 * sy, 120);
      }
    }
  }


  /** The first `done` iterations of the row loop of 240-pixel batch
      `batch` left their rows holding scratch row `yRelative`. */
  ghost predicate RowsFromScratch240(fb: seq<Rgb565BE>, scratch: seq<bv8>, batch: nat, done: nat)
    requires |fb| == FB_PIXELS && 3840 <= |scratch| && batch < 30
  {
    forall yRelative: nat :: yRelative < 8 && yRelative < done ==>
      RowFrom(fb, scratch, DstRow(G240, batch, yRelative, 0), 240 * yRelative, 240)
  }

  /** Copying the row of iteration `yRelative` of a 240-pixel batch adds it
      to the rows done, and keeps the earlier ones. */
  lemma RowsFromScratch240Step(before: seq<Rgb565BE>, after: seq<Rgb565BE>, scratch: seq<bv8>,
                               batch: nat, yRelative: nat, dstY: nat)
    requires |before| == FB_PIXELS && |after| == FB_PIXELS && 3840 <= |scratch|
    requires batch < 30 && yRelative < 8
    requires dstY == DstRow(G240, batch, yRelative, 0) && dstY < DST_SIZE
    requires RowsFromScratch240(before, scratch, batch, yRelative)
    requires RowWritten(before, after, scratch, dstY, 240 * yRelative, 240)
    ensures RowsFromScratch240(after, scratch, batch, yRelative + 1)
  {
    assert G240.scale == 1 && G240.DstRowsPerBatch() == 8;
    forall yr: nat | yr < 8 && yr < yRelative + 1
      ensures RowFrom(after, scratch, DstRow(G240, batch, yr, 0), 240 * yr, 240)
    {
      var y := DstRow(G240, batch, yr, 0);
      assert y == 8 * batch + yr && dstY == 8 * batch + yRelative;
      if yr == yRelative {
        forall x | 0 <= x < DST_SIZE
          ensures after[DST_SIZE * y + x] == PixelAt(scratch, 240 * yr + SrcX(x, 240))
        {
          assert DST_SIZE * y + x - DST_SIZE * dstY == x;
        }
      } else {
        // An earlier row of the batch lies wholly below row `dstY`.
        assert DST_SIZE * y + DST_SIZE <= DST_SIZE * dstY;
        assert RowFrom(before, scratch, y, 240 * yr, 240);
      }
    }
  }

  /** `after` is `before` outside framebuffer rows [first, first + count). */
  ghost predicate RowsKept(before: seq<Rgb565BE>, after: seq<Rgb565BE>, first: nat, count: nat)
    requires |before| == FB_PIXELS && |after| == FB_PIXELS
  {
    forall k :: 0 <= k < FB_PIXELS && !(DST_SIZE * first <= k < DST_SIZE * (first + count)) ==>
      after[k] == before[k]
  }

  /** Writes framebuffer row `dstY` from the source row starting at pixel
      `srcRowStart` of `scratch`, a row of `srcSize` pixels each repeated
      240 / `srcSize` times. Nothing outside the row changes. */
  method BlitRow(scratch: array<bv8>, srcRowStart: nat, srcSize: nat, fb: array<Rgb565BE>, dstY: nat)
    requires fb.Length == FB_PIXELS && dstY < DST_SIZE
    requires srcSize == 60 || srcSize == 120
    requires 2 * (srcRowStart + srcSize) <= scratch.Length
    requires scratch as object != fb as object
    modifies fb
    ensures RowWritten(old(fb[..]), fb[..], scratch[..], dstY, srcRowStart, srcSize)
  {
    var dstRowStart := DST_SIZE * dstY;
    ghost var src := scratch[..];
    for dstX := 0 to DST_SIZE
      invariant forall x :: 0 <= x < dstX ==>
        fb[dstRowStart + x] == PixelAt(src, srcRowStart + SrcX(x, srcSize))
      invariant forall k :: 0 <= k < FB_PIXELS && !(dstRowStart <= k < dstRowStart + DST_SIZE) ==>
        fb[k] == old(fb[k])
    {
      var srcX := SrcX(dstX, srcSize);
      var pixel := Rgb565BE(scratch[2 * (srcRowStart + srcX)], scratch[2 * (srcRowStart + srcX) + 1]);
      assert pixel == PixelAt(src, srcRowStart + srcX);
      fb[dstRowStart + dstX] := pixel;
    }
    forall k | dstRowStart <= k < dstRowStart + DST_SIZE
      ensures fb[k] == PixelAt(src, srcRowStart + SrcX(k - dstRowStart, srcSize))
    {
      var x := k - dstRowStart;
      assert fb[dstRowStart + x] == PixelAt(src, srcRowStart + SrcX(x, srcSize));
    }
    assert scratch[..] == src;
  }

  /** Copies one 240-pixel row of the scratch buffer, starting at pixel
      `srcRowStart`, to framebuffer row `dstY` as one block. */
  method CopyRow(scratch: array<bv8>, srcRowStart: nat, fb: array<Rgb565BE>, dstY: nat)
    requires fb.Length == FB_PIXELS && dstY < DST_SIZE
    requires 2 * (srcRowStart + DST_SIZE) <= scratch.Length
    requires scratch as object != fb as object
    modifies fb
    ensures RowWritten(old(fb[..]), fb[..], scratch[..], dstY, srcRowStart, DST_SIZE)
  {
    ghost var src := scratch[..];
    forall x | 0 <= x < DST_SIZE {
      fb[DST_SIZE * dstY + x] := Rgb565BE(scratch[2 * (srcRowStart + x)], scratch[2 * (srcRowStart + x) + 1]);
    }
    assert scratch[..] == src;
  }

  /** Writes the 120 framebuffer rows that batch `batch` of a 60-pixel
      frame covers, replicating each pixel of the scratch buffer 4 times
      across and 4 times down. When the batch is the frame's batch
      `batch` of `data` (from `start`), the upscaled rows grow by 120. */
  method UpscaleBatch60(scratch: array<bv8>, fb: array<Rgb565BE>, batch: nat,
                        ghost data: seq<bv8>, ghost start: nat, ghost enough: bool)
    requires scratch.Length == FILE_BUFFER_SIZE && fb.Length == FB_PIXELS
    requires scratch as object != fb as object
    requires batch < 2
    requires enough ==> start + 7200 <= |data|
    requires enough ==> scratch[..3600] == data[start + 3600 * batch..start + 3600 * batch + 3600]
    requires enough ==> RowsDone(fb[..], FramePixels(data[start..start + 7200]), 60, 120 * batch)
    modifies fb
    ensures enough ==> RowsDone(fb[..], FramePixels(data[start..start + 7200]), 60, 120 * batch + 120)
    ensures RowsKept(old(fb[..]), fb[..], 120 * batch, 120)
    ensures RowsFromScratch60(fb[..], scratch[..], batch, 120)
  {
    ghost var src := if enough then FramePixels(data[start..start + 7200]) else [];
    ghost var batchPixels := scratch[..];
    if enough {
      ScratchBatch(data, start, 7200, batchPixels, 1800 * batch, 1800);
    }
    assert G60.srcRowsPerBatch == 30 && G60.scale == 4 && G60.DstRowsPerBatch() == 120 && G60.srcSize == 60;
    for srcYRelative := 0 to G60.srcRowsPerBatch
      invariant enough ==> RowsDone(fb[..], src, 60, 120 * batch + 4 * srcYRelative)
      invariant RowsKept(old(fb[..]), fb[..], 120 * batch, 120)
      invariant RowsFromScratch60(fb[..], batchPixels, batch, 4 * srcYRelative)
    {
      for dstYOffset := 0 to G60.scale
        invariant enough ==> RowsDone(fb[..], src, 60, 120 * batch + 4 * srcYRelative + dstYOffset)
        invariant RowsKept(old(fb[..]), fb[..], 120 * batch, 120)
        invariant RowsFromScratch60(fb[..], batchPixels, batch, 4 * srcYRelative + dstYOffset)
      {
        var dstY := DstRow(G60, batch, srcYRelative, dstYOffset);
        var srcRowStart := srcYRelative * G60.srcSize;
        assert dstY == 120 * batch + 4 * srcYRelative + dstYOffset && srcRowStart == 60 * srcYRelative;
        ghost var before := fb[..];
        BlitRow(scratch, srcRowStart, G60.srcSize, fb, dstY);
        assert scratch[..] == batchPixels;
        assert RowsFromScratch60(fb[..], batchPixels, batch, 4 * srcYRelative + dstYOffset + 1) by {
          RowsFromScratch60Step(before, fb[..], batchPixels, batch, srcYRelative, dstYOffset, dstY);
        }
        assert enough ==> RowsDone(fb[..], src, 60, 120 * batch + 4 * srcYRelative + dstYOffset + 1) by {
          if enough {
            UpscaledRowDone60(src, batchPixels, before, fb[..], batch, srcYRelative, dstYOffset, dstY);
          }
        }
      }
    }
  }

  /** Reads one 60x60 frame, in 2 batches of 30 rows (3600 bytes), and
      writes it into the framebuffer with every pixel replicated into a 4x4
      block. A short read aborts. */
  method Read60pxFrameIntoMainFb(file: ReadFile, scratch: array<bv8>, fb: array<Rgb565BE>) returns (ok: bool)
    requires file.Valid()
    requires scratch.Length == FILE_BUFFER_SIZE && fb.Length == FB_PIXELS
    requires scratch as object != fb as object
    modifies file, scratch, fb
    ensures file.Valid()
    ensures ok <==> old(file.pos) + 7200 <= |file.data|
    ensures ok ==> file.pos == old(file.pos) + 7200
    ensures ok ==> fb[..] == Upscale(FramePixels(file.data[old(file.pos)..file.pos]), 60)
    ensures ok ==> scratch[..3600] == file.data[file.pos - 3600..file.pos]
    ensures ok ==> scratch[3600..] == old(scratch[3600..])
    ensures !ok ==> file.pos == |file.data|
  {
    ghost var start := file.pos;
    ghost var enough := start + 7200 <= |file.data|;
    ghost var src := if enough then FramePixels(file.data[start..start + 7200]) else [];
    assert G60.Batches() == 2 && G60.BytesPerBatch() == 3600 && G60.DstRowsPerBatch() * 2 == DST_SIZE;
    for batch := 0 to G60.Batches()
      invariant file.Valid()
      invariant file.pos == start + 3600 * batch
      invariant batch > 0 ==> scratch[..3600] == file.data[file.pos - 3600..file.pos]
      invariant scratch[3600..] == old(scratch[3600..])
      invariant enough ==> RowsDone(fb[..], src, 60, 120 * batch)
    {
      var read := file.Read(scratch, G60.BytesPerBatch());
      if read != G60.BytesPerBatch() {
        return false;
      }
      UpscaleBatch60(scratch, fb, batch, file.data, start, enough);
    }
    ok := true;
  }

  /** Writes the 30 framebuffer rows that batch `batch` of a 120-pixel
      frame covers, replicating each pixel of the scratch buffer 2 times
      across and 2 times down. When the batch is the frame's batch
      `batch` of `data` (from `start`), the upscaled rows grow by 30. */
  method UpscaleBatch120(scratch: array<bv8>, fb: array<Rgb565BE>, batch: nat,
                        ghost data: seq<bv8>, ghost start: nat, ghost enough: bool)
    requires scratch.Length == FILE_BUFFER_SIZE && fb.Length == FB_PIXELS
    requires scratch as object != fb as object
    requires batch < 8
    requires enough ==> start + 28800 <= |data|
    requires enough ==> scratch[..3600] == data[start + 3600 * batch..start + 3600 * batch + 3600]
    requires enough ==> RowsDone(fb[..], FramePixels(data[start..start + 28800]), 120, 30 * batch)
    modifies fb
    ensures enough ==> RowsDone(fb[..], FramePixels(data[start..start + 28800]), 120, 30 * batch + 30)
    ensures RowsKept(old(fb[..]), fb[..], 30 * batch, 30)
    ensures RowsFromScratch120(fb[..], scratch[..], batch, 30)
  {
    ghost var src := if enough then FramePixels(data[start..start + 28800]) else [];
    ghost var batchPixels := scratch[..];
    if enough {
      ScratchBatch(data, start, 28800, batchPixels, 1800 * batch, 1800);
    }
    assert G120.srcRowsPerBatch == 15 && G120.scale == 2 && G120.DstRowsPerBatch() == 30 && G120.srcSize == 120;
    for srcYRelative := 0 to G120.srcRowsPerBatch
      invariant enough ==> RowsDone(fb[..], src, 120, 30 * batch + 2 * srcYRelative)
      invariant RowsKept(old(fb[..]), fb[..], 30 * batch, 30)
      invariant RowsFromScratch120(fb[..], batchPixels, batch, 2 * srcYRelative)
    {
      for dstYOffset := 0 to G120.scale
        invariant enough ==> RowsDone(fb[..], src, 120, 30 * batch + 2 * srcYRelative + dstYOffset)
        invariant RowsKept(old(fb[..]), fb[..], 30 * batch, 30)
        invariant RowsFromScratch120(fb[..], batchPixels, batch, 2 * srcYRelative + dstYOffset)
      {
        var dstY := DstRow(G120, batch, srcYRelative, dstYOffset);
        var srcRowStart := srcYRelative * G120.srcSize;
        assert dstY == 30 * batch + 2 * srcYRelative + dstYOffset && srcRowStart == 120 * srcYRelative;
        ghost var before := fb[..];
        BlitRow(scratch, srcRowStart, G120.srcSize, fb, dstY);
        assert scratch[..] == batchPixels;
        assert RowsFromScratch120(fb[..], batchPixels, batch, 2 * srcYRelative + dstYOffset + 1) by {
          RowsFromScratch120Step(before, fb[..], batchPixels, batch, srcYRelative, dstYOffset, dstY);
        }
        assert enough ==> RowsDone(fb[..], src, 120, 30 * batch + 2 * srcYRelative + dstYOffset + 1) by {
          if enough {
            UpscaledRowDone120(src, batchPixels, before, fb[..], batch, srcYRelative, dstYOffset, dstY);
          }
        }
      }
    }
  }

  /** Reads one 120x120 frame, in 8 batches of 15 rows (3600 bytes), and
      writes it into the framebuffer with every pixel replicated into a 2x2
      block. A short read aborts. */
  method Read120pxFrameIntoMainFb(file: ReadFile, scratch: array<bv8>, fb: array<Rgb565BE>) returns (ok: bool)
    requires file.Valid()
    requires scratch.Length == FILE_BUFFER_SIZE && fb.Length == FB_PIXELS
    requires scratch as object != fb as object
    modifies file, scratch, fb
    ensures file.Valid()
    ensures ok <==> old(file.pos) + 28800 <= |file.data|
    ensures ok ==> file.pos == old(file.pos) + 28800
    ensures ok ==> fb[..] == Upscale(FramePixels(file.data[old(file.pos)..file.pos]), 120)
    ensures ok ==> scratch[..3600] == file.data[file.pos - 3600..file.pos]
    ensures ok ==> scratch[3600..] == old(scratch[3600..])
    ensures !ok ==> file.pos == |file.data|
  {
    ghost var start := file.pos;
    ghost var enough := start + 28800 <= |file.data|;
    ghost var src := if enough then FramePixels(file.data[start..start + 28800]) else [];
    assert G120.Batches() == 8 && G120.BytesPerBatch() == 3600 && G120.DstRowsPerBatch() * 8 == DST_SIZE;
    for batch := 0 to G120.Batches()
      invariant file.Valid()
      invariant file.pos == start + 3600 * batch
      invariant batch > 0 ==> scratch[..3600] == file.data[file.pos - 3600..file.pos]
      invariant scratch[3600..] == old(scratch[3600..])
      invariant enough ==> RowsDone(fb[..], src, 120, 30 * batch)
    {
      var read := file.Read(scratch, G120.BytesPerBatch());
      if read != G120.BytesPerBatch() {
        return false;
      }
      UpscaleBatch120(scratch, fb, batch, file.data, start, enough);
    }
    ok := true;
  }

  /** Copies the 8 framebuffer rows that batch `batch` of a 240-pixel frame
      covers from the scratch buffer. When the batch is the frame's batch
      `batch` of `data` (from `start`), the copied rows grow by 8. */
  method CopyBatch240(scratch: array<bv8>, fb: array<Rgb565BE>, batch: nat,
                      ghost data: seq<bv8>, ghost start: nat, ghost enough: bool)
    requires scratch.Length == FILE_BUFFER_SIZE && fb.Length == FB_PIXELS
    requires scratch as object != fb as object
    requires batch < 30
    requires enough ==> start + 115200 <= |data|
    requires enough ==> scratch[..3840] == data[start + 3840 * batch..start + 3840 * batch + 3840]
    requires enough ==> RowsDone(fb[..], FramePixels(data[start..start + 115200]), 240, 8 * batch)
    modifies fb
    ensures enough ==> RowsDone(fb[..], FramePixels(data[start..start + 115200]), 240, 8 * batch + 8)
    ensures RowsKept(old(fb[..]), fb[..], 8 * batch, 8)
    ensures RowsFromScratch240(fb[..], scratch[..], batch, 8)
  {
    ghost var src := if enough then FramePixels(data[start..start + 115200]) else [];
    ghost var batchPixels := scratch[..];
    if enough {
      ScratchBatch(data, start, 115200, batchPixels, 1920 * batch, 1920);
    }
    assert G240.srcRowsPerBatch == 8 && G240.DstRowsPerBatch() == 8 && G240.srcSize == 240;
    for yRelative := 0 to G240.srcRowsPerBatch
      invariant enough ==> RowsDone(fb[..], src, 240, 8 * batch + yRelative)
      invariant RowsKept(old(fb[..]), fb[..], 8 * batch, 8)
      invariant RowsFromScratch240(fb[..], batchPixels, batch, yRelative)
    {
      var dstY := DstRow(G240, batch, yRelative, 0);
      var srcRowStart := yRelative * G240.srcSize;
      assert dstY == 8 * batch + yRelative && srcRowStart == 240 * yRelative;
      ghost var before := fb[..];
      CopyRow(scratch, srcRowStart, fb, dstY);
      assert scratch[..] == batchPixels;
      assert RowsFromScratch240(fb[..], batchPixels, batch, yRelative + 1) by {
        RowsFromScratch240Step(before, fb[..], batchPixels, batch, yRelative, dstY);
      }
      assert enough ==> RowsDone(fb[..], src, 240, 8 * batch + yRelative + 1) by {
        if enough {
          CopiedRowDone240(src, batchPixels, before, fb[..], batch, yRelative, dstY);
        }
      }
    }
  }

  /** Reads one 240x240 frame, in 30 batches of 8 rows (3840 bytes), and
      copies it row by row into the framebuffer unscaled. A short read
      aborts. */
  method Read240pxFrameIntoMainFb(file: ReadFile, scratch: array<bv8>, fb: array<Rgb565BE>) returns (ok: bool)
    requires file.Valid()
    requires scratch.Length == FILE_BUFFER_SIZE && fb.Length == FB_PIXELS
    requires scratch as object != fb as object
    modifies file, scratch, fb
    ensures file.Valid()
    ensures ok <==> old(file.pos) + 115200 <= |file.data|
    ensures ok ==> file.pos == old(file.pos) + 115200
    ensures ok ==> fb[..] == FramePixels(file.data[old(file.pos)..file.pos])
    ensures ok ==> scratch[..3840] == file.data[file.pos - 3840..file.pos]
    ensures ok ==> scratch[3840..] == old(scratch[3840..])
    ensures !ok ==> file.pos == |file.data|
  {
    ghost var start := file.pos;
    ghost var enough := start + 115200 <= |file.data|;
    ghost var src := if enough then FramePixels(file.data[start..start + 115200]) else [];
    assert G240.Batches() == 30 && G240.BytesPerBatch() == 3840 && G240.DstRowsPerBatch() * 30 == DST_SIZE;
    for batch := 0 to G240.Batches()
      invariant file.Valid()
      invariant file.pos == start + 3840 * batch
      invariant batch > 0 ==> scratch[..3840] == file.data[file.pos - 3840..file.pos]
      invariant scratch[3840..] == old(scratch[3840..])
      invariant enough ==> RowsDone(fb[..], src, 240, 8 * batch)
    {
      var read := file.Read(scratch, G240.BytesPerBatch());
      if read != G240.BytesPerBatch() {
        return false;
      }
      CopyBatch240(scratch, fb, batch, file.data, start, enough);
    }
    assert fb[..] == Upscale(src, DST_SIZE);
    UpscaleIdentity(src);
    ok := true;
  }
}
