# luluu in Dafny

A model of the core of luluu, a player for small looping RGB565 animations
on a 240x240 display, and proofs about it. Two Dafny modules:

- `LuluuEnc` (`luluu_enc.dfy`) holds the "LU" container codec:
  - the 8-byte header and its validation (`Header.Decode`, `Header.AsBytes`), and the error kinds;
  - the little-endian frame count (`NumFrames`);
  - the size-dependent frame-rate table (`FrameRate.IsSupported`) and the two-stage snapping of an arbitrary rate to a supported one (`FrameRate.MakeNearestSupported`);
  - packing and unpacking of 5:6:5 pixels and their byte orders (`Rgb565NE`, `Rgb565BE`).

  Bytes are `bv8` and 16-bit words `bv16`, so the shifts, masks and truncating casts are exact.
- `Loader` (`read_file.dfy`) holds the streaming frame loaders. The file is a
  `ReadFile` object: its contents plus a cursor. Each loader reads one frame
  in batches of whole rows into a 4096-byte scratch `array`. It then writes
  the 57,600-pixel framebuffer `array`, addressed `x + 240*y`, replicating
  every source pixel into a 4x4 block (60-pixel frames) or a 2x2 block
  (120-pixel frames), or copying rows unchanged (240-pixel frames). Every
  loader is proved against `Upscale`, a function of the bytes consumed. Its
  `ensures` also fixes how far the cursor moves and what the scratch buffer
  holds afterwards.

As in the Rust code, these parts are imperative:

- the file stream (`ReadFile.Read`, `ReadFile.SeekFromStart`);
- `MakeNearestSupported`;
- the three loaders;
- the loaders' per-batch steps (`UpscaleBatch60`, `UpscaleBatch120`, `CopyBatch240`);
- the loaders' per-row steps (`BlitRow`, `CopyRow`).

The rest is functions and lemmas.

Two behaviours of the code are easy to misread:

- At size 240, `is_supported` accepts 5, 6 and 8 fps. `make_nearest_supported` nevertheless lowers every rate above 4 to 4 there. Both behaviours are modelled as written, and `CeilingStricterAt240` states the disagreement.
- Raw rates 17 and 18 snap to 15, although 20 is nearer to 18: no range arm covers them, and the catch-all arm at lib.rs:91-94 sends them to 15 (`Bucket`, `NearestSupportedExamples`).

## Model

| member | source | states |
|---|---|---|
| LuluuEnc.NumFrames.FromU16 | software/luluu-enc/src/lib.rs:53-55 | the stored pair is little-endian: first byte is n mod 256, second is n div 256 |
| LuluuEnc.NumFrames.AsU16 | software/luluu-enc/src/lib.rs:56-58 | the value read back has the second byte as its high byte and the first as its low byte |
| LuluuEnc.NumFramesRoundTrip | software/luluu-enc/src/lib.rs:53-58 | from_u16 then as_u16 is the identity on every u16, and as_u16 then from_u16 is the identity on every byte pair |
| LuluuEnc.Size.IsSupported | software/luluu-enc/src/lib.rs:119-124 | a supported side is at least 60 and divides the 240-pixel display evenly |
| LuluuEnc.FrameRate.IsSupported | software/luluu-enc/src/lib.rs:69-76 | a supported rate lies in 1..24, and in 1..12 at any size other than 60 |
| LuluuEnc.Bucket | software/luluu-enc/src/lib.rs:79-95 | the bucket stage yields a rate supported at size 60, keeps every rate already supported there, picks a nearest supported rate for every byte up to 26 except 18, and sends 18 and every byte above 26 to 15 |
| LuluuEnc.Ceiling | software/luluu-enc/src/lib.rs:96-105 | the size clamp never raises a rate, leaves it alone at 60, caps it at exactly 12 at 120 and exactly 4 at 240, and so makes a bucketed rate supported at the size |
| LuluuEnc.NearestSupported | software/luluu-enc/src/lib.rs:78-110 | the stored rate is supported at the size, at most 12 at 120 and 4 at 240, a nearest supported rate at 60 (bytes up to 26 except 18), the size's cap or 15 for the catch-all bytes, and supported rates (within 4 at 240) are kept |
| LuluuEnc.FrameRate.MakeNearestSupported | software/luluu-enc/src/lib.rs:78-110 | Ok exactly for sizes 60, 120, 240; otherwise Err(UnsupportedSize(size)) and the rate is untouched; on Ok the new rate is NearestSupported and is supported at the size |
| LuluuEnc.NearestSupportedIdempotent | software/luluu-enc/src/lib.rs:69-110 | snapping twice equals snapping once; a rate is a fixed point iff it is supported (and at most 4 at 240) |
| LuluuEnc.SupportedRatesBySize | software/luluu-enc/src/lib.rs:69-76 | the exact supported sets at 240, 120 and 60; unsupported sizes behave like 240; support at a larger size implies support at a smaller one |
| LuluuEnc.CeilingStricterAt240 | software/luluu-enc/src/lib.rs:69-76 | the rates is_supported accepts at 240 above 4 are exactly 5, 6, 8, and make_nearest_supported turns each into 4 |
| LuluuEnc.NearestSupportedExamples | software/luluu-enc/src/lib.rs:79-105 | worked quantisation examples (0->1, 7->8, 13->12, 30->15, 16 at 120 ->12, 7 at 240 ->4, …), including both ends of two ranges, which pin the ties: 11->10 and 22->24 |
| LuluuEnc.Header.AsBytes | software/luluu-enc/src/lib.rs:169-174 | the header is HEADER_SIZE = 8 bytes |
| LuluuEnc.Header.FromBytes | software/luluu-enc/src/lib.rs:142 | the 8 bytes are read field by field; byte 4 is the size and byte 5 the frame rate |
| LuluuEnc.Header.Decode | software/luluu-enc/src/lib.rs:141-167 | Ok exactly when magic, version, encoding, size and rate are all acceptable; on Ok the header's bytes are the input bytes |
| LuluuEnc.DecodeCheckOrder | software/luluu-enc/src/lib.rs:143-166 | for every input, the error is that of the first failing check in the order magic, version, encoding, size, frame rate, carrying the offending bytes; with all checks passing the result is Ok of the bytes read as a header |
| LuluuEnc.HeaderBytesRoundTrip | software/luluu-enc/src/lib.rs:130-137 | the field-by-field reinterpretation of 8 bytes and as_bytes are inverse in both directions |
| LuluuEnc.DecodeAsBytes | software/luluu-enc/src/lib.rs:141-171 | every valid header decodes from its own bytes to itself |
| LuluuEnc.DecodeRejectsMutation | software/luluu-enc/src/lib.rs:141-167 | changing one byte of a valid header to a bad value yields that field's own error carrying the bad value; the frame-count bytes are never checked |
| LuluuEnc.Rgb565NE.Pack565 | software/luluu-enc/src/lib.rs:243-245 | in-range components occupy bits 15-11, 10-5 and 4-0 |
| LuluuEnc.Rgb565NE.Unpack565 | software/luluu-enc/src/lib.rs:250-256 | the three components are within 5, 6 and 5 bits |
| LuluuEnc.Rgb565NE.ToBe | software/luluu-enc/src/lib.rs:269-271 | the big-endian pair is high byte first |
| LuluuEnc.Rgb565BE.ToNe | software/luluu-enc/src/lib.rs:326-328 | the native value has the first byte as high byte |
| LuluuEnc.PackUnpackRoundTrip | software/luluu-enc/src/lib.rs:243-256 | unpack(pack(r,g,b)) == [r,g,b] for in-range components, and every pixel is the packing of its components |
| LuluuEnc.EndianRoundTrip | software/luluu-enc/src/lib.rs:269-271 | to_be then to_ne, and to_ne then to_be, are identities |
| Loader.ReadFile.Read | software/luluu/src/read_file.rs:12-15 | reads min(len, bytes left) bytes from the cursor into the buffer's prefix, advances the cursor by that many, leaves the rest of the buffer alone |
| Loader.ReadFile.SeekFromStart | software/luluu/src/read_file.rs:17-18 | moves the cursor to an offset within the data; an offset past the end is refused |
| Loader.GeometryFor | software/luluu/src/read_file.rs:54-64 | there is a loader geometry (`G60`, `G120`, `G240`, the constants the loaders loop over) exactly for the supported sizes, with the frame side as its source size |
| Loader.BatchGeometrySafe | software/luluu/src/read_file.rs:58-67 | per size: batches of 3600/3600/3840 bytes fit the 4096-byte buffer, consist of whole rows, read size*size*2 bytes in all and cover the 240 destination rows |
| Loader.EveryRowWritten | software/luluu/src/read_file.rs:69-91 | for each loader geometry, every framebuffer row 0..239 is dst_y = batch*DST_ROWS_PER_BATCH + src_y_relative*SCALE_FACTOR + dst_y_offset for some iteration of the three loops (likewise lines 119-141 and 165-183) |
| Loader.EachRowWrittenOnce | software/luluu/src/read_file.rs:82 | every iteration's dst_y is below 240, and two different iterations never write the same row (likewise lines 132 and 177) |
| Loader.PixelAt | software/luluu/src/read_file.rs:74 | pixel k is byte pair 2k, 2k+1, first byte high |
| Loader.FramePixels | software/luluu/src/read_file.rs:74 | the pixel view of n bytes has n / 2 pixels, pixel k being byte pair 2k, 2k+1 |
| Loader.SrcX | software/luluu/src/read_file.rs:86-88 | destination column dst_x reads source column dst_x / scale: the largest column whose block starts at or before dst_x |
| Loader.SourceIndex | software/luluu/src/read_file.rs:76-89 | every source index a destination pixel reads is inside the source frame |
| Loader.UpscaleAt | software/luluu/src/read_file.rs:81-89 | framebuffer pixel x + 240*y is source pixel x/s + size*(y/s) |
| Loader.UpscaleIdentity | software/luluu/src/read_file.rs:172-183 | at size 240 the upscaling is the identity |
| Loader.ScratchPixel | software/luluu/src/read_file.rs:70-74 | after a batch is read, pixel p of the scratch buffer is pixel base+p of the frame |
| Loader.ScratchBatch | software/luluu/src/read_file.rs:70-74 | after a batch is read, the whole scratch batch is the run of frame pixels it was read from |
| Loader.SourceIndexInBatch60 | software/luluu/src/read_file.rs:82 | destination row batch*120 + src_y_relative*4 + dst_y_offset reads source row src_y_relative of batch `batch` (60 px) |
| Loader.SourceIndexInBatch120 | software/luluu/src/read_file.rs:132 | the same for 120 px frames: row batch*30 + src_y_relative*2 + dst_y_offset |
| Loader.SourceIndexInBatch240 | software/luluu/src/read_file.rs:172-177 | the same for 240 px frames: row batch*8 + y_relative |
| Loader.UpscaledPixel60 | software/luluu/src/read_file.rs:82-88 | a destination pixel that holds scratch pixel dst_x / 4 of its source row holds the pixel the upscaling puts there (60 px) |
| Loader.UpscaledPixel120 | software/luluu/src/read_file.rs:132-138 | the same for 120 px frames |
| Loader.CopiedPixel240 | software/luluu/src/read_file.rs:174-181 | the same for a copied 240 px row |
| Loader.UpscaledRowDone60 | software/luluu/src/read_file.rs:81-89 | a destination row written from the current batch extends the correctly upscaled rows by one (60 px) |
| Loader.UpscaledRowDone120 | software/luluu/src/read_file.rs:131-139 | the same for 120 px frames |
| Loader.CopiedRowDone240 | software/luluu/src/read_file.rs:173-183 | the same for a copied 240 px row |
| Loader.BlitRow | software/luluu/src/read_file.rs:83-89 | row dst_y gets source pixel dst_x / scale of the scratch row, and no other framebuffer pixel changes |
| Loader.CopyRow | software/luluu/src/read_file.rs:177-182 | row dst_y becomes the 240 pixels of the scratch row, and no other framebuffer pixel changes |
| Loader.UpscaleBatch60 | software/luluu/src/read_file.rs:76-91 | whatever the scratch buffer holds, each framebuffer row 120*batch + 4*srcYRelative + dstYOffset holds scratch row `srcYRelative` widened 4x (`RowsFromScratch60`), and every row outside 120*batch .. 120*batch + 120 keeps its pixels (`RowsKept`); when the scratch holds batch `batch` of the frame, the upscaled rows extend from 120*batch to 120*batch + 120 |
| Loader.RowsFromScratch60Step | software/luluu/src/read_file.rs:81-89 | writing the row of one inner-loop iteration adds that row to the rows taken from scratch and keeps those of the earlier iterations |
| Loader.UpscaleBatch120 | software/luluu/src/read_file.rs:126-141 | the same for 120 px frames, widened 2x: rows 30*batch + 2*srcYRelative + dstYOffset hold scratch row `srcYRelative` (`RowsFromScratch120`); rows outside 30*batch .. 30*batch + 30 are kept; the upscaled rows extend to 30*batch + 30 when the scratch holds the batch |
| Loader.RowsFromScratch120Step | software/luluu/src/read_file.rs:131-139 | the same step property for the 120 px inner loop |
| Loader.CopyBatch240 | software/luluu/src/read_file.rs:172-183 | the same for 240 px frames, copied: row 8*batch + yRelative holds scratch row `yRelative` (`RowsFromScratch240`); rows outside 8*batch .. 8*batch + 8 are kept; the rows done extend to 8*batch + 8 when the scratch holds the batch |
| Loader.RowsFromScratch240Step | software/luluu/src/read_file.rs:177-182 | copying the row of one loop iteration adds it to the rows taken from scratch and keeps the earlier ones |
| Loader.Read60pxFrameIntoMainFb | software/luluu/src/read_file.rs:45-93 | succeeds iff 7200 bytes remain; then consumes exactly 7200 bytes and the framebuffer is their 4x upscaling, all of it overwritten |
| Loader.Read120pxFrameIntoMainFb | software/luluu/src/read_file.rs:95-143 | succeeds iff 28800 bytes remain; then consumes exactly 28800 bytes and the framebuffer is their 2x upscaling |
| Loader.Read240pxFrameIntoMainFb | software/luluu/src/read_file.rs:145-185 | succeeds iff 115200 bytes remain; then consumes exactly 115200 bytes and the framebuffer equals the pixels read |

## Left out

- Device errors from the block device (the `unwrap` on every `read`) are not modelled. The stream never fails; it only runs out of data.
- A short read aborts the loader (result `false`). The cursor is then at the end of the data and the framebuffer contents are unspecified. The 60-pixel loader checks the length with `assert_eq!`. The 120 and 240 pixel loaders use `debug_assert_eq!`, so a release build would continue with stale scratch bytes. That continuation is not modelled.
- `seek_from_current` is not modelled; the loaders never call it. The forwarding `ReadFile` implementation over the SD-card library is not modelled either.
- Loader.ReadFile.SeekFromStart: refusing an offset past the end is an assumption. The library behind the trait is not part of this model.
- Memory reinterpretation is replaced by explicit byte-to-field and byte-pair-to-pixel decoding: `bytemuck` casts, `cast_bytes*`, `slice_as_bytes`, and the raw-pointer row views in the loaders. Alignment panics are not modelled.
- The `Rgb888`/`Rgba8888` helpers, `from_raw`/`to_raw` and `Rgb565BE::ZERO` are not modelled; they are plain wrappers.
- LuluuEnc.FrameRate.MakeNearestSupported returns the updated rate instead of writing `self` in place. The value is one byte, so nothing but the in-place write is lost.
- The scratch buffer size (4096) and the framebuffer size (240x240) are defined in files that are not part of this model. They are taken from the loaders' comments and their assertions.
- The loaders require that the scratch buffer and the framebuffer are distinct objects; the two `&mut` borrows guarantee it.
- The `warn!`/`defmt` logging, the command-line encoder and the board and firmware code are not part of this model.
