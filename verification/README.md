# Verified models of the vendored cores and the audio engine

This project models four components and proves what each of them is for.

1. **The NES picture unit** of smolnes (`apps/external/smolnes/deobfuscated.c`). The emulator postpones visible dots,
   renders them in spans with pre-shifted registers and batches of eight pixels, and skips runs of dots in which
   nothing happens. `PpuModel` is a reference picture unit that runs one dot at a time. `NesEmulator.Nes` is the
   emulator in its own form, an object whose fields and arrays are updated by loops. Its rendering and dot loops are
   proved equal to a number of reference dots and its memory accesses to a bus model.
   `PostponedDots.LazyRunIsEagerRun` says that a program cannot tell the lazy emulator from an eager one, and
   `NesEmulator.Nes.RunProgram` says it of the object. What the reference unit draws is proved apart from how it draws:
   `WholePicture.PictureIsPlane` says that a picture is the window into the plane of nametables that the scroll
   registers name, with the sprites over it.
2. **The image encoders** of stb (`apps/external/stb/stb_image_write.h`): deflate with lazy matching and stored
   fallback, Adler-32, the PNG filters, the JPEG entropy coder, and the TGA and Radiance run-length packets. For each
   there is a reference decoder written from the standard, and the encoder is proved to be undone by it.
3. **The HTTP message code** of cpp-httplib (`apps/external/cpp-httplib/httplib.h`): the streaming multipart parser and
   its serializer, the chunked coding, byte ranges, query strings, the worker pool and the ownership of the client's
   socket.
4. **The audio engine** (`apps/src/audio/AudioEngine.cpp` and `.h`): the command ring and the voice table.

## How it is laid out

| files | what they hold |
|---|---|
| `PpuModel`, `Ticking`, `CpuBus` | the reference picture unit, what runs of dots do, and one call of `mem` |
| `Alignment`, `SpanBatch`, `SpriteEval`, `Nes` | register alignment, eight-pixel batches, sprite rows, and the emulator object |
| `PrefetchTiles`, `FrameShown`, `PictureRuns` | what the prefetch at the end of a line is for, and what the next picture shows |
| `Scrolling`, `Plane`, `TileTaps`, `LineShown` | V as a place in the plane of nametables, and the tiles that a line shows |
| `LinesOnward`, `ScrolledPicture`, `PictureRows`, `WholePicture` | from line to line, rows of a picture, and the picture as a window into the plane |
| `SpriteLaws`, `PictureEvents`, `BusLaws`, `MapperLaws` | sprites by line and column, pictures and interrupts in time, what memory and bank switches give back |
| `PostponedDots`, `PpuHoles`, `MirrorSwitch` | lazy against eager runs, the exact set of writes that break the equality, and who sees them |
| `Bits`, `Inflate`, `Lz77`, `BitWriter`, `Deflate`, `PngFilter` | bit strings, the reference inflater, tokens, the bit buffer, the encoder, the filters |
| `JpegCoding`, `JpegWriter` | the JPEG entropy coder and its decoder |
| `JpegHeader`, `JpegTables`, `JpegCodable`, `JpegRange` | tables as a file's head describes them, the built-in tables, and what they code and decode |
| `RunLength`, `RunLengthWriter` | the run-length packets of TGA and Radiance and their decoders |
| `TextSearch`, `Multipart`, `MultipartRoundTrip`, `FormDataParser` | searching, the parser as a function, its round trip, the parser object |
| `FormHeaders` | a reader of header lines from RFC 7578, and forms read back with it |
| `Chunked`, `ChunkedRoundTrip`, `ChunkedCoder`, `ChunkedTransfer` | the decoder as a function, its round trip, sink and decoder objects, and both joined |
| `RangeCoalescing`, `QueryString`, `WorkerPool`, `ClientSocket` | the other HTTP parts |
| `CommandRing`, `Voices`, `NoteLife`, `AudioEngine` | the ring, the voice table, how long notes sound, the engine object |

Where the source updates state in place, a class or a loop does so here, and its contract ties the new state to a
function; the laws are then proved about the functions. Concurrency is modelled as one step per load, store or
critical section, in every order. Arrays and pointers are indices into arrays or sequences; 8-, 16- and 32-bit
registers whose bits matter are bit-vectors, and sums that must fit 32 bits are assigned to a 32-bit type.

## What turned out not to hold

- **Postponed dots can be seen.** Two kinds of write reach the picture unit without settling the pending dots first: a
  write to a mirror of $4014 (any $4x14 other than $4014 itself starts the sprite DMA, but only $4014 flushes), and a
  write to $5000-$5FFF, which falls into the mapper switch although only $8000 and up flushes.
  `PpuHoles.InvisibleIffNotHole` gives the exact condition: a write is invisible on every machine if and only if it is
  not `PostponedDots.Hole`. The run theorem asks that no such write is made while dots are pending. The sprite DMA and the
  bank switches of mappers 1 and 3 are seen by a program at $2002, the mirroring switch of mapper 7 on the next picture.
- **An access to $5000-$5FFF also reads outside the bank table.** The last statement of `mem` (lines 1033 to 1035) indexes
  `prg` with `hi - 8` shifted, which is negative there. What that read gives is the board's memory function in the model.
- **Rendering switched on inside a line draws over another one.** The frame-buffer row is placed only at dot 0 with
  rendering on (lines 1413 to 1417), so the rest of such a line goes into the row of the last line that began with it on
  (`FrameShown.LateStartDrawsElsewhere`). A row stays where the beam is unless a line of the picture begins with rendering
  off (`FrameShown.StaysPlacedIff`), and the pictures of a program that does not switch show what was drawn
  (`PictureRuns.NextPictureShows`).
- **The first line of a picture begins with the wrong tiles.** The prefetch runs only on lines 0 to 239, so the tiles at
  the left edge of line 0 are those fetched at the end of line 239, from 240 lines below T
  (`WholePicture.FirstLineBeginsBelow`). The line is not among the 224 that are handed over, so
  `WholePicture.PictureIsPlane` holds for every line of the screen.
- **Empty input has no deflate block.** The stored fallback truncates the output to its header and then writes no
  block, so `Deflate.Compress` gives its input back if and only if the input is not empty, and the image data of a PNG is
  readable if and only if the image has rows (`PngFilter.ImageData`).
- **Header lines have a limit that depends on the cutting.** The length is looked at once per call, before the end of
  the line need have arrived. A multipart message survives every cutting if and only if each of its header lines is
  shorter than the limit (`MultipartRoundTrip.EveryCuttingIffShort`); for any other message a cut inside the line end is
  refused. A message without parts never becomes valid (`MultipartRoundTrip.NoPartsNeverValid`).
- **`coalesce_ranges` relies on its caller**, which brings all ranges to normal form first. For ranges of any form it
  keeps the bytes of the valid ones if and only if none of these, in sorted order, begins before the first
  (`RangeCoalescing.JoinedIff`); a suffix range sorts first and may begin last.
- **A nested request forgets a `stop`.** After a stop during a request the socket is closed at a request's end if and
  only if that request asks for it or no request has begun since the stop (`ClientSocket.StopTakesEffectIff`;
  `NestedRequestForgetsStop` gives a run with a nested redirect in which it stays open).
- **A job can be accepted and never run.** Once all workers have left, all accepted jobs have run if and only if none has
  been offered since the last exit (`WorkerPool.AllRunIffNoneLate`), and no later move starts one
  (`WorkerPool.NothingRunsAfter`; `LateJobIsStranded` gives a run).
- **The built-in JPEG tables stop at 11 and 10 bits.** A scan is read back if and only if its DC differences and AC values
  are in that range (`JpegRange.ReadBackIffInRange`); nothing these tables decode to is outside it.
- **A query string** gives its multimap back if and only if no pair is repeated and no key is empty
  (`QueryString.QueryRoundTrip`).
- **A note without an id**, which only a wrapped id counter could produce, breaks the voice table, and nothing else does
  (`Voices.NamelessBreaks`).

## Model

| member | source | states |
|---|---|---|
| Ticking.VisibleTicks | apps/external/smolnes/deobfuscated.c:826-841 | Any run of reference dots inside the visible part of a line is one sprite evaluation at dot 0 and then a run of pixels: nothing else of the picture unit moves |
| Ticking.TicksAdd | apps/external/smolnes/deobfuscated.c:1409-1502 | Running m and then n dots is running m + n dots |
| Ticking.PixelsAdd | apps/external/smolnes/deobfuscated.c:568-803 | A span of m and then n pixels is a span of m + n, for every start dot |
| Ticking.TickIsHeadTail | apps/external/smolnes/deobfuscated.c:1410-1501 | A reference dot is the head of the loop body followed by its common tail |
| Ticking.JumpIsTicks | apps/external/smolnes/deobfuscated.c:1433-1458 | Jumping over dots without an event is the same as running each of them |
| Ticking.TickMovesBeam | apps/external/smolnes/deobfuscated.c:1497-1501 | One dot moves the beam by one modulo 89342 |
| Ticking.TicksMoveBeam | apps/external/smolnes/deobfuscated.c:1409-1502 | n dots move the clock scany * 341 + dot by exactly n modulo 262 * 341, with rendering on or off |
| Alignment.WidenAligns | apps/external/smolnes/deobfuscated.c:568-590 | The pre-shifted registers set up before a span agree with the plain ones |
| Alignment.ShiftAligned | apps/external/smolnes/deobfuscated.c:334-370 | Shifting pre-shifted and plain registers keeps them aligned, for every fine_x |
| Alignment.MergeAligned | apps/external/smolnes/deobfuscated.c:334-370 | Merging a fetched tile into pre-shifted and plain registers keeps them aligned |
| Alignment.TapsAligned | apps/external/smolnes/deobfuscated.c:298-370 | Tapping the aligned registers at fixed bits is tapping the plain ones at bit 15 - fine_x and attribute bits 30 - 2 fine_x and 31 - 2 fine_x |
| Alignment.NarrowUndoes | apps/external/smolnes/deobfuscated.c:568-803 | Shifting back at the end of a span recovers the plain registers, whatever the upper bits hold |
| SpanBatch.TwoPixels | apps/external/smolnes/deobfuscated.c:298-332 | Two dots of the pipeline are one fetch and two drawn pixels |
| SpanBatch.DrawsIgnoreFetches | apps/external/smolnes/deobfuscated.c:568-803 | Drawing the pixels of a tile and fetching the next one can be done in either order |
| SpanBatch.BatchIsPixels | apps/external/smolnes/deobfuscated.c:568-803 | Eight pixels drawn first and the four fetches of their tile done afterwards are eight reference pixels |
| SpriteEval.MirrorReverses | apps/external/smolnes/deobfuscated.c:246-296 | The shift-and-mask reversal of a pattern byte reverses its bits |
| SpriteEval.MirroredColor | apps/external/smolnes/deobfuscated.c:246-296 | A column of the mirrored pattern is the opposite column of the pattern |
| SpriteEval.FirstSpriteAppend | apps/external/smolnes/deobfuscated.c:246-296 | Looking at one more sprite changes a cell only where no earlier sprite is opaque |
| SpriteEval.RowStep | apps/external/smolnes/deobfuscated.c:246-296 | Drawing one column under what is there extends the row by that column |
| SpriteEval.LineShowsFirst | apps/external/smolnes/deobfuscated.c:246-296 | A row is the sprite row of the scanline if and only if every column shows the first sprite in OAM order that is opaque there, and 0 where none is |
| NesEmulator.Nes.TileBatch | apps/external/smolnes/deobfuscated.c:568-803 | The eight-pixel batch leaves registers, status and frame buffer as eight reference pixels do |
| NesEmulator.Nes.RenderVisibleSpan | apps/external/smolnes/deobfuscated.c:568-803 | The aligned, batched renderer leaves V, latches, registers, status and both frame buffers as that many reference pixels do, for every start dot, fine_x and length |
| NesEmulator.Nes.RenderVisibleSpanBackgroundOnly | apps/external/smolnes/deobfuscated.c:372-566 | On an empty sprite row the background-only renderer does the same as the sprite renderer |
| NesEmulator.Nes.EvaluateScanlineSprites | apps/external/smolnes/deobfuscated.c:246-296 | The sprite loops leave, in every column, the first opaque sprite, and the flag tells whether there is one |
| NesEmulator.Nes.RunDeferredVisiblePpuDots | apps/external/smolnes/deobfuscated.c:826-841 | Running pending dots is that many reference dots |
| PrefetchTiles.NextLineStartsWithTwoTiles | apps/external/smolnes/deobfuscated.c:805-814 | Whatever the shift registers held, 21 dots from dot 320 the next scanline starts with the first two tiles of its row side by side in them, and V behind these tiles |
| Scrolling.NextTileLaw | apps/external/smolnes/deobfuscated.c:298-332 | A fetched tile moves V one column to the right of 64 and leaves its row |
| Scrolling.EndOfLineLaw | apps/external/smolnes/deobfuscated.c:1425-1432 | The end of a line moves V one row down: from row 239 to the other nametable, from row 255 to the top of the same one; the column comes from T |
| PictureRows.DotStepsDown | apps/external/smolnes/deobfuscated.c:1425-1432 | As a row number 240 * (bit 11) + 8 * coarse Y + fine Y, V goes to (row + 1) modulo 480 at dot 256 of a rendered line when coarse Y is below 30, and takes coarse X and bit 10 from T; from there on it goes to the last row of the nametable and then to its first |
| PictureRows.DotKeepsRow | apps/external/smolnes/deobfuscated.c:1409-1502 | Every dot but dot 256 of a rendered line and the reload on line 261 leaves V in its row |
| PictureRows.DotReloads | apps/external/smolnes/deobfuscated.c:1462-1464 | The reload takes the row from T and keeps the column |
| PictureRows.LineOfPictureRow | apps/external/smolnes/deobfuscated.c:1409-1502 | With no access meanwhile, line k of a picture is drawn from row (row of T + k) modulo 480; from a row that is not one of tiles, the nametable ends at 256 first |
| PictureRows.DownIs | apps/external/smolnes/deobfuscated.c:1425-1432 | n lines down from a row of tiles is n rows further of the 480 |
| PictureRows.DownIsLow | apps/external/smolnes/deobfuscated.c:1425-1432 | From one of the sixteen rows behind them it is first to the end of the same nametable and then from its top |
| PictureRows.RightByIs | apps/external/smolnes/deobfuscated.c:298-332 | n tiles to the right is n columns further of the 64, in the same row |
| Plane.FetchedIsPlane | apps/external/smolnes/deobfuscated.c:298-332 | The tile fetched at V is the one at V's column and row of the four nametables: its number, the quarter of its attribute byte and its pattern rows are where the plane has them |
| TileTaps.DrawsShow | apps/external/smolnes/deobfuscated.c:568-803 | Eight draws from two tiles in the registers show the pixels from fine_x on of these tiles |
| LineShown.TilesShown | apps/external/smolnes/deobfuscated.c:568-803 | A line that begins with two tiles in the registers shows these and the 31 fetched behind them, side by side and fine_x pixels in |
| ScrolledPicture.LineTurned | apps/external/smolnes/deobfuscated.c:805-1502 | Every rendered line, whatever it began with, leaves the first two tiles of the row below in the registers, in T's column |
| ScrolledPicture.LineIsPlane | apps/external/smolnes/deobfuscated.c:568-841 | Such a line shows, in every column, the pixel that is that far right in the plane, under or over the line's first opaque sprite, and changes no other line |
| WholePicture.PictureIsPlane | apps/external/smolnes/deobfuscated.c:1409-1502 | With rendering on and no access from the line before the picture to the hand-over, pixel (x, l) of the picture handed over is the one that is x + fine_x pixels right of and l lines below the place in T, merged with the first opaque sprite of the line, for each of the 224 lines and 256 columns |
| WholePicture.FirstLineBeginsBelow | apps/external/smolnes/deobfuscated.c:805-1502 | The first line of the next picture begins with the two tiles fetched at the end of line 239, from 240 lines below T |
| SpriteLaws.SeenPixel | apps/external/smolnes/deobfuscated.c:592-606 | Nothing opaque shows the backdrop, an opaque background its palette's entry, an opaque sprite an entry of the upper palettes unless it is behind an opaque background |
| SpriteLaws.HitIff | apps/external/smolnes/deobfuscated.c:592-600 | The hit flag rises exactly where sprite 0 is opaque |
| SpriteLaws.SpriteAbsent | apps/external/smolnes/deobfuscated.c:246-296 | A sprite shows nothing outside eight columns and the 8 or 16 lines below its Y byte |
| SpriteLaws.SpriteShows | apps/external/smolnes/deobfuscated.c:246-296 | Inside, it shows the colour of its pattern at the row and column there, turned over as its attribute says, with its palette, its priority and the mark of sprite 0 |
| PictureEvents.PicturesInTime | apps/external/smolnes/deobfuscated.c:1465-1501 | n dots hand over as many pictures as the beam passes line 241, dot 1, and keep the earlier ones, whatever is drawn |
| PictureEvents.BlankFlag | apps/external/smolnes/deobfuscated.c:1465-1496 | Unless it is read, the vertical blank flag is up for the twenty lines behind a hand-over and down until the next |
| PictureEvents.FlagsCleared | apps/external/smolnes/deobfuscated.c:1493-1496 | The dot before the picture takes every flag away |
| PictureEvents.HitFlag | apps/external/smolnes/deobfuscated.c:592-600 | From the start of a picture on, with no access meanwhile, the hit flag is up if and only if an opaque pixel of sprite 0 has been shown |
| PictureEvents.HandOverInterrupts | apps/external/smolnes/deobfuscated.c:1467-1473 | The hand-over interrupts if and only if control bit 7 asks for it |
| PictureEvents.CounterInterrupts | apps/external/smolnes/deobfuscated.c:1458-1460 | The line counter of mapper 4 goes down by one on every rendered line and interrupts at dot 261 of the line whose number it held |
| NesEmulator.Nes.Round | apps/external/smolnes/deobfuscated.c:1409-1502 | One round of the loop, with its visible, post-visible and non-visible jumps, is as many reference dots as it takes off the counter |
| NesEmulator.Nes.RunPpu | apps/external/smolnes/deobfuscated.c:1409-1502 | The whole loop is exactly the given number of reference dots: no reload, MMC3 decrement, NMI, status clear or frame is lost or doubled |
| PostponedDots.DefersVisibleDots | apps/external/smolnes/deobfuscated.c:816-824 | Dots may be postponed behind the pending ones exactly when each of them is a visible dot of the reference run |
| NesEmulator.Nes.FlushDeferredPpuDots | apps/external/smolnes/deobfuscated.c:843-849 | Settles the pending dots: the machine becomes the flushed one |
| NesEmulator.Nes.FinishInstruction | apps/external/smolnes/deobfuscated.c:1385-1502 | The end of an instruction either adds to the pending dots or flushes and runs the loop |
| NesEmulator.Nes.Mem | apps/external/smolnes/deobfuscated.c:853-1039 | Every access gives the byte and leaves the machine that the bus model says |
| NesEmulator.Nes.OamDma | apps/external/smolnes/deobfuscated.c:928-930 | The DMA loop reads and stores the 256 cells from the last to the first |
| NesEmulator.Nes.RunProgram | apps/external/smolnes/deobfuscated.c:853-1502 | The emulator object, driven for n actions by a program that keeps away from the holes, hears what an eager run of reference dots hears, has submitted the same frames, and is that run's machine once its pending dots are settled |
| PostponedDots.FlushKeepsOutside | apps/external/smolnes/deobfuscated.c:843-849 | Settling pending dots changes only the raster and the sprite row, and moves the dot by the number pending |
| PostponedDots.ReadCommutes | apps/external/smolnes/deobfuscated.c:853-1039 | A read gives the same byte and machine whether the pending dots run before it or stay pending |
| PostponedDots.WriteCommutes | apps/external/smolnes/deobfuscated.c:853-1039 | So does every write that is not a hole |
| PostponedDots.FlushRewired | apps/external/smolnes/deobfuscated.c:958-1032 | A mapper write that leaves pattern banks and mirroring alone commutes with pending dots |
| PostponedDots.RegisterPageDma | apps/external/smolnes/deobfuscated.c:853-866 | A DMA from a register page settles the pending dots with its first read |
| PostponedDots.FinishCommutes | apps/external/smolnes/deobfuscated.c:1385-1391 | Charging dots lazily and then settling is charging them eagerly |
| PostponedDots.DoCommutes | apps/external/smolnes/deobfuscated.c:853-866 | One action of the processor keeps: eager state is lazy state with the pending dots run |
| PostponedDots.LazyRunIsEagerRun | apps/external/smolnes/deobfuscated.c:816-866 | For every program and every number of actions, a lazy run that keeps away from the holes hears the same bytes, sees the same interrupts, submits the same frames and ends in the same state as an eager run |
| PpuHoles.DmaHoleIsSeen | apps/external/smolnes/deobfuscated.c:928-930 | Every sprite DMA through a mirror of $4014, from a page that does not settle, is seen by some program at $2002 |
| PpuHoles.BankHoleIsSeen | apps/external/smolnes/deobfuscated.c:1001-1032 | So is a bank switch through $5000-$5FFF on mappers 1 and 3 |
| FrameShown.DrawnIff | apps/external/smolnes/deobfuscated.c:1409-1502 | With nothing accessed meanwhile, some dot up to the next hand-over draws a cell if and only if rendering is on in the picture and the cell is in the rest of the row being drawn or in a line below |
| FrameShown.PixelIsShown | apps/external/smolnes/deobfuscated.c:1465-1501 | With nothing accessed meanwhile, the next picture handed over shows each cell of its 224 rows that is not to be drawn again the way it is |
| FrameShown.StaysPlacedIff | apps/external/smolnes/deobfuscated.c:1413-1417 | The row that dots draw into stays the row of the beam across a dot, unless a line of the picture begins with rendering off |
| FrameShown.LateStartDrawsElsewhere | apps/external/smolnes/deobfuscated.c:1413-1424 | Rendering that is switched on inside a line draws into the row of the line that last began with it on and leaves the cell under the beam alone |
| PictureRuns.NextPictureShows | apps/external/smolnes/deobfuscated.c:816-1501 | In a lazy run of any program that keeps away from the holes and does not switch rendering meanwhile, whatever else it reads and writes, the next picture shows each cell that was not still to be drawn |
| MirrorSwitch.MirrorHoleIsSeen | apps/external/smolnes/deobfuscated.c:962-966 | Every mirroring switch through $5000-$5FFF on mapper 7 shows on the next picture of some machine, whatever two colours the screen can tell apart |
| PpuHoles.InvisibleIffNotHole | apps/external/smolnes/deobfuscated.c:855-866 | A write never shows whether dots were pending if and only if it is not a hole |
| MapperLaws.Mapper2Law | apps/external/smolnes/deobfuscated.c:1006-1008 | A store of val selects bank val modulo 32 for the first bank: every later read of $8000-$FFFF gives that bank's byte or one of the banks that stay |
| MapperLaws.Mapper7Law | apps/external/smolnes/deobfuscated.c:962-966 | A store selects a pair of program banks and one page for all four nametables |
| MapperLaws.Mapper3Law | apps/external/smolnes/deobfuscated.c:1001-1004 | A store selects the two pattern banks that every fetch below $2000 goes to; program and mirroring stay |
| MapperLaws.Mapper4Law | apps/external/smolnes/deobfuscated.c:968-999 | A command and its data load one of eight registers, and every program read and pattern fetch goes to the bank that these select in either order |
| MapperLaws.Mapper4Others | apps/external/smolnes/deobfuscated.c:968-999 | Its other stores set the mirroring, the line counter and the interrupt switch, and no bank |
| MapperLaws.Mapper1Law | apps/external/smolnes/deobfuscated.c:1010-1031 | A reset and five stores, low bit first, load the register their address names; reads and fetches then go to the banks the four registers select |
| MapperLaws.Mapper1Nametables | apps/external/smolnes/deobfuscated.c:1010-1031 | The two low control bits arrange the nametables |
| BusLaws.MemoryLaw | apps/external/smolnes/deobfuscated.c:869-958 | Work and cartridge memory give back what was stored last in each cell |
| BusLaws.PortsAreMirrored | apps/external/smolnes/deobfuscated.c:873-925 | Every address of $2000-$3FFF is the port of its low three bits |
| BusLaws.StatusLaw | apps/external/smolnes/deobfuscated.c:914-919 | A status read gives the three flags and takes away the blank flag and the write toggle |
| BusLaws.AddressLaw | apps/external/smolnes/deobfuscated.c:907-911 | Two stores to $2006 set V, high byte first |
| BusLaws.ScrollLaw | apps/external/smolnes/deobfuscated.c:892-905 | A store to $2000 and two to $2005 put nametable, column and row into T and the pixel into fine_x, and leave V |
| BusLaws.DataLoad | apps/external/smolnes/deobfuscated.c:876-889 | A read of $2007 gives the buffer, fills it from V and moves V by 1 or 32 |
| BusLaws.NametableKeeps | apps/external/smolnes/deobfuscated.c:876-889 | What is stored through $2007 into a nametable is read back from there |
| BusLaws.PaletteKeeps | apps/external/smolnes/deobfuscated.c:876-889 | So is what is stored into the palette |
| BusLaws.PatternKeeps | apps/external/smolnes/deobfuscated.c:876-889 | Pattern memory gives back what is stored through $2007 when it is RAM, and is left alone when it is not |
| BusLaws.PaletteCells | apps/external/smolnes/deobfuscated.c:885-886 | Entry e of the palettes stands at $3f00 + e, and entry 0 of each sprite palette is the background's |
| BusLaws.DmaLaw | apps/external/smolnes/deobfuscated.c:928-930 | A store to $4014 copies a page of work memory into the sprite memory |
| BusLaws.PadLaw | apps/external/smolnes/deobfuscated.c:931-950 | A store to $4016 latches the keys, and the reads behind it give them one by one |
| Bits.LowBitsJoin | apps/external/stb/stb_image_write.h:880-881 | Adding a code shifted above the pending bits appends its bits |
| Bits.OrIsSum | apps/external/stb/stb_image_write.h:880-881 | Or-ing a code above the pending bits is adding it |
| Lz77.ReadsSymbol | apps/external/stb/stb_image_write.h:883-889 | Each of the 288 fixed Huffman codes is read back as its symbol, whatever follows |
| Lz77.LengthTable | apps/external/stb/stb_image_write.h:901-902 | The encoder's length table is the format's, and the rest of a length fits its extra bits |
| Lz77.DistanceTable | apps/external/stb/stb_image_write.h:903-904 | So is the distance table |
| Lz77.ReadsMatch | apps/external/stb/stb_image_write.h:957-966 | A written match is read back and copied, also when it overlaps itself |
| Lz77.TokensInRange | apps/external/stb/stb_image_write.h:957-966 | Every match of a block has length 3..258 and distance 1..32767, and the token sizes add up to the data |
| Lz77.InflatesBlock | apps/external/stb/stb_image_write.h:915-978 | A block of tokens inflates to the data it was made from |
| Lz77.InflatesStoredBlocks | apps/external/stb/stb_image_write.h:985-999 | The stored form of any data that is not empty inflates to it |
| Lz77.StoredSize | apps/external/stb/stb_image_write.h:985-999 | The stored form costs five bytes per started 32767 |
| BitWriting.BitWriter.Flush | apps/external/stb/stb_image_write.h:839-847 | Flushing keeps the written bits and leaves fewer than eight pending |
| BitWriting.BitWriter.Add | apps/external/stb/stb_image_write.h:880-881 | Appends the low bits of a code, within 32 bits |
| BitWriting.BitWriter.AddSymbol | apps/external/stb/stb_image_write.h:883-889 | Appends the fixed Huffman code of a symbol |
| BitWriting.BitWriter.Pad | apps/external/stb/stb_image_write.h:976-978 | Pads with fewer than eight bits to the byte boundary |
| BitWriting.BitReverse | apps/external/stb/stb_image_write.h:849-857 | Its low bits are the bits of the code, highest first |
| Deflate.CountMatch | apps/external/stb/stb_image_write.h:859-865 | The number of equal bytes, at most 258 |
| Deflate.CommonIs | apps/external/stb/stb_image_write.h:859-865 | A common prefix that cannot be extended is the longest one |
| Deflate.FindMatch | apps/external/stb/stb_image_write.h:923-933 | The latest entry of the chain with the longest match of three bytes or more inside the window |
| Deflate.NextIsBetter | apps/external/stb/stb_image_write.h:941-955 | Whether some entry matches more at the next position |
| Deflate.TableIndex | apps/external/stb/stb_image_write.h:960-963 | The table entry a value belongs to |
| Deflate.Remember | apps/external/stb/stb_image_write.h:934-939 | A full chain loses its older half, the position comes last in it, and no chain grows beyond twice the quality |
| Deflate.CopyMatch | apps/external/stb/stb_image_write.h:957-966 | Copying a match continues the data, byte by byte |
| Deflate.Choose | apps/external/stb/stb_image_write.h:922-970 | The token written at a position: the longest match on offer in the window unless the next position has a longer one; it fits and continues the data |
| Deflate.ChainIsSuffix | apps/external/stb/stb_image_write.h:934-939 | A chain holds the latest token starts with its hash: all of them, or at least as many as the quality |
| Deflate.OneByteCost | apps/external/stb/stb_image_write.h:918-975 | In data of equal bytes every match is as long as it may be, so the tokens are a literal, matches of 258 and a rest |
| Deflate.WriteBlock | apps/external/stb/stb_image_write.h:918-975 | Writes tokens that stand for exactly the data, every one of them the choice of the lazy matching with the chains that the tokens before it left, and literals for the last three bytes |
| Deflate.PeakFits | apps/external/stb/stb_image_write.h:1002-1011 | The sums fit 32 bits when reduced every n bytes if and only if n <= 5552 |
| Deflate.DelayedStep | apps/external/stb/stb_image_write.h:1007-1008 | Reducing later makes no difference to the remainders |
| Deflate.Adler32 | apps/external/stb/stb_image_write.h:1001-1016 | Without overflow, the two sums of the checksum as RFC 1950 defines them byte by byte |
| Deflate.WriteStored | apps/external/stb/stb_image_write.h:985-999 | Appends the stored form |
| Deflate.UnzlibOfNothing | apps/external/stb/stb_image_write.h:985-999 | Header and checksum without a block are no zlib string |
| Deflate.Compress | apps/external/stb/stb_image_write.h:895-1020 | For every input and quality, decoding the output gives the input back if and only if it is not empty; the output is at most six bytes longer than the stored form and no longer than the chosen tokens need; n equal bytes take at most 26 bits for each 258 |
| PngFilter.Paeth | apps/external/stb/stb_image_write.h:1083-1089 | The neighbour closest to a + b - c |
| PngFilter.FirstPixelFilters | apps/external/stb/stb_image_write.h:1094-1117 | The first-pixel switch, with the first-row kinds, filters as the standard says |
| PngFilter.LaterPixelFilters | apps/external/stb/stb_image_write.h:1118-1125 | So does the switch over the later pixels |
| PngFilter.UndoFiltered | apps/external/stb/stb_image_write.h:1092-1126 | Undoing any filter restores every byte of the row modulo 256 |
| PngFilter.EncodeLine | apps/external/stb/stb_image_write.h:1092-1126 | Filters a row of the image, for every stride, order of rows and pixel size |
| PngFilter.Estimate | apps/external/stb/stb_image_write.h:1156-1160 | The sum of the magnitudes of the bytes read as signed |
| PngFilter.BestFilter | apps/external/stb/stb_image_write.h:1151-1169 | The first of the cheapest filters |
| PngFilter.FilterLine | apps/external/stb/stb_image_write.h:1146-1170 | A forced filter is used, and otherwise the cheapest |
| PngFilter.FilterImage | apps/external/stb/stb_image_write.h:1140-1174 | Undoing the filter named before each row, in order, restores all rows; each of the filters named is the forced one or the first of the cheapest |
| PngFilter.ImageData | apps/external/stb/stb_image_write.h:1128-1178 | Inflating and unfiltering the image data gives rows whose byte i of row y is byte stride * y + i of the memory, counted from the last line when flipped, for every size, filter setting and compression level, if and only if there are any rows; the filters are the forced or the cheapest ones |
| PngFilter.RowsShow | apps/external/stb/stb_image_write.h:1099-1100 | The rows show the memory: byte i of row y is byte stride * y + i, counted from the last line when flipped |
| JpegCoding.LookupFinds | apps/external/stb/stb_image_write.h:1355-1395 | With a prefix-free table the only code that begins the bits is the one written |
| JpegCoding.ExtendExtra | apps/external/stb/stb_image_write.h:1318-1326 | The extra bits of a value other than zero stand for it |
| JpegCoding.ReadsMarkers | apps/external/stb/stb_image_write.h:1381-1387 | Each marker is read back as sixteen zeros |
| JpegCoding.AcStep | apps/external/stb/stb_image_write.h:1374-1391 | A coefficient behind any number of zeros is read back |
| JpegCoding.ReadsBlock | apps/external/stb/stb_image_write.h:1355-1395 | For any prefix-free tables that cover it, a block is read back: DC difference, runs, markers, end of block |
| JpegCoding.ReadsScan | apps/external/stb/stb_image_write.h:1522-1598 | So is a sequence of blocks with a predictor per component |
| JpegCoding.PredictorIsLast | apps/external/stb/stb_image_write.h:1522-1598 | The predictor is the DC coefficient of the last block of the component, or zero before the first |
| JpegHeader.SameDescription | apps/external/stb/stb_image_write.h:1400-1424 | The table segments at the head of the file leave only one table: a reader has the codes of the writer |
| JpegHeader.DescribedIsPrefixFree | apps/external/stb/stb_image_write.h:1400-1424 | Every table that counts and symbol list describe without running out of 16 bits is prefix-free |
| JpegCodable.HeadDescribesTables | apps/external/stb/stb_image_write.h:1400-1462 | The four code tables are the ones the segments written to the head describe |
| JpegCodable.CoversIffInRange | apps/external/stb/stb_image_write.h:1425-1462 | The tables have all codes a block needs if and only if its DC difference is below 2048 and its AC values are below 1024 in magnitude |
| JpegCodable.CodableIffInRange | apps/external/stb/stb_image_write.h:1425-1462 | With these tables a scan has all the codes it needs if and only if its values are in range |
| JpegRange.ReadBackIffInRange | apps/external/stb/stb_image_write.h:1425-1598 | Coded with these tables and followed by anything, a scan is read back if and only if its values are in range |
| JpegRange.WriteWithOwnTables | apps/external/stb/stb_image_write.h:1425-1598 | What the writer puts out with its own tables is read back as the scan if and only if the values are in range |
| JpegWriting.UnstuffedStuffed | apps/external/stb/stb_image_write.h:1258-1262 | Dropping the zero behind every 255 recovers the bytes |
| JpegWriting.EmitByte | apps/external/stb/stb_image_write.h:1257-1265 | The byte put out and what remains in the buffer are the first eight pending bits and the rest |
| JpegWriting.AddBits | apps/external/stb/stb_image_write.h:1254-1256 | Or-ing a code into the 24-bit buffer appends it to the pending bits |
| JpegWriting.JpegWriter.WriteBits | apps/external/stb/stb_image_write.h:1253-1268 | Emitted bits and pending bits together grow by the code, and fewer than eight stay pending |
| JpegWriting.JpegWriter.CalcBits | apps/external/stb/stb_image_write.h:1318-1326 | The category and the extra bits of a value |
| JpegWriting.JpegWriter.ProcessBlock | apps/external/stb/stb_image_write.h:1355-1395 | Writes the codes of the block and returns its DC coefficient |
| JpegWriting.WriteScan | apps/external/stb/stb_image_write.h:1522-1598 | Without the stuffing the output is the codes of the scan and fewer than eight ones more; when the tables have all the codes, decoding gives all blocks back |
| RunLength.ReadsPixel | apps/external/stb/stb_image_write.h:418-449 | A pixel stands in the file in the order the format asks for: one byte, or blue, green, red and then the alpha byte if there is one; read back it is the pixel |
| RunLength.TgaRoundTrip | apps/external/stb/stb_image_write.h:559-607 | A row of packets, each of 1 to 128 pixels and none crossing the row, decodes to the row |
| RunLength.HdrRoundTrip | apps/external/stb/stb_image_write.h:721-756 | Component packets, dumps of at most 128 and runs of at most 127, decode to the bytes |
| RunLengthWriting.WriteContext.Write1 | apps/external/stb/stb_image_write.h:399-404 | Sink and 64-byte buffer together grow by the byte |
| RunLengthWriting.WriteContext.Write3 | apps/external/stb/stb_image_write.h:406-416 | Sink and buffer together grow by the three bytes |
| RunLengthWriting.WriteContext.FindPacket | apps/external/stb/stb_image_write.h:563-591 | The packet at a pixel: as many equal pixels as there are up to 128, or the pixels up to where two equal ones begin |
| RunLengthWriting.WriteContext.WriteRow | apps/external/stb/stb_image_write.h:559-605 | Writes packets that stand for the row, each of them the one found at its pixel |
| RunLengthWriting.WriteContext.WriteTga | apps/external/stb/stb_image_write.h:550-607 | All rows decode to themselves, the last row of the memory first unless flipped, and the buffer is empty at the end |
| RunLengthWriting.WriteContext.WriteComponent | apps/external/stb/stb_image_write.h:721-756 | Writes packets that stand for the component, without three equal bytes in a row in any dump |
| RunLengthWriting.WriteContext.WriteScanline | apps/external/stb/stb_image_write.h:668-757 | A scanline of any width decodes to its components: with a header and packets from width 8 to 32767, flat otherwise |
| TextSearch.FindBehind | apps/external/cpp-httplib/httplib.h:6008-6029 | A pattern that cannot overlap itself is first found where the text goes on with it |
| TextSearch.FoundInTime | apps/external/cpp-httplib/httplib.h:6008-6029 | It is found as soon as it has arrived, and until then all but its length of what has arrived comes before it |
| FormDataParsing.FormDataParser.BufFind | apps/external/cpp-httplib/httplib.h:6008-6029 | The first occurrence in the window, or its size |
| FormDataParsing.FormDataParser.BufAppend | apps/external/cpp-httplib/httplib.h:6031-6047 | The window grows by the data, through moving and reallocation |
| FormDataParsing.FormDataParser.ReadBody | apps/external/cpp-httplib/httplib.h:5913-5935 | State 3 hands over what cannot belong to the delimiter |
| FormDataParsing.FormDataParser.ReadHeaders | apps/external/cpp-httplib/httplib.h:5832-5910 | State 2 takes the lines that have arrived |
| FormDataParsing.FormDataParser.Parse | apps/external/cpp-httplib/httplib.h:5813-5957 | The parser object does what the parser function says, callbacks included |
| MultipartRoundTrip.SerializeFormData | apps/external/cpp-httplib/httplib.h:6093-6136 | The message of the items, which `FormHeaders.TextOfField` and `FormHeaders.TextOfFile` write out and `FormHeaders.FormRoundTrip` reads |
| MultipartRoundTrip.Message.StepInBody | apps/external/cpp-httplib/httplib.h:5913-5935 | In a body every round keeps the content handed over a prefix of the item's |
| MultipartRoundTrip.Message.StepMoves | apps/external/cpp-httplib/httplib.h:5818-5953 | Every round of the loop stays on the way through the message, and stops early only when more is to come |
| MultipartRoundTrip.FragmentsParse | apps/external/cpp-httplib/httplib.h:5813-5957 | For one or more items, a boundary without carriage return, contents without the delimiter and readable header lines below the limit, any cutting of the serialized message gives one header callback per item, pieces that concatenate to its content, and a valid parser |
| MultipartRoundTrip.NoPartsNeverValid | apps/external/cpp-httplib/httplib.h:5820-5826 | A message without items never makes the parser valid |
| MultipartRoundTrip.EveryCuttingIffShort | apps/external/cpp-httplib/httplib.h:5813-5957 | Such a message, with header lines of any length, survives every cutting if and only if each header line is shorter than the limit |
| FormHeaders.TextOfField | apps/external/cpp-httplib/httplib.h:6093-6136 | The text of a plain field: the boundary line, its disposition with its name, an empty line and its content |
| FormHeaders.TextOfFile | apps/external/cpp-httplib/httplib.h:6093-6136 | The text of a file: its name, its file name and its type |
| FormHeaders.FormRoundTrip | apps/external/cpp-httplib/httplib.h:5813-6136 | For names and file names without quote or line end, every cutting of the serialized form gives, to a reader of RFC 7578 header lines, header callbacks with the name, file name and type of each item, and its content |
| Chunked.HexRoundTrip | apps/external/cpp-httplib/httplib.h:2955-2963 | Printing a size and parsing its line are inverse |
| Chunked.DigitIs | apps/external/cpp-httplib/httplib.h:9533-9553 | The sixteen digits, letters in either case |
| Chunked.ReadsDigits | apps/external/cpp-httplib/httplib.h:9533-9553 | A size line gives the value of its digits up to the first other character, the largest number when that is too large |
| Chunked.SpaceIsSkipped | apps/external/cpp-httplib/httplib.h:9533-9553 | Leading space makes no difference |
| Chunked.PrefixIsSkipped | apps/external/cpp-httplib/httplib.h:9533-9553 | Nor does a prefix 0x |
| Chunked.SignIsRead | apps/external/cpp-httplib/httplib.h:9533-9553 | A minus sign negates modulo 2^64, a plus sign does not |
| ChunkedCoding.FromIToHex | apps/external/cpp-httplib/httplib.h:2955-2963 | The digits of the number, highest first |
| ChunkedCoding.Connection.GetLine | apps/external/cpp-httplib/httplib.h:3365-3401 | Reading byte by byte takes the first line with its end, or fails for none or too long |
| ChunkedCoding.ChunkedSink.Write | apps/external/cpp-httplib/httplib.h:5420-5442 | A write puts out one chunk, an empty one nothing, and counts its bytes |
| ChunkedCoding.ChunkedSink.Done | apps/external/cpp-httplib/httplib.h:5446-5485 | The end puts out the last chunk, the trailer fields and an empty line |
| ChunkedCoding.ChunkedDecoder.ReadPayload | apps/external/cpp-httplib/httplib.h:9528-9573 | The decoder object answers as the decoder function does, for any short read |
| ChunkedRoundTrip.NextIs | apps/external/cpp-httplib/httplib.h:9533-9553 | At a boundary the size line starts the next chunk or ends the message |
| ChunkedRoundTrip.BytesAre | apps/external/cpp-httplib/httplib.h:9555-9572 | Inside a chunk a read delivers the next bytes with offset and total, and the chunk's line end is taken with its last byte |
| ChunkedRoundTrip.EmptyWritesVanish | apps/external/cpp-httplib/httplib.h:5431-5436 | Empty writes put nothing out |
| ChunkedRoundTrip.ChunkedRoundTrip | apps/external/cpp-httplib/httplib.h:5413-5508 | For every sequence of writes, buffer sizes and short reads, each call delivers the next bytes with their place in their chunk, then the end is reported, without an error |
| ChunkedTransfer.Transfer | apps/external/cpp-httplib/httplib.h:5413-5508 | Written through the sink object, ended with trailer fields, sent over and read by the decoder object with any buffer and short reads, the bytes arrive, and what is left reads as the trailer fields |
| ChunkedTransfer.TrailerReads | apps/external/cpp-httplib/httplib.h:5459-5485 | The trailer that is put out reads as its fields, name and value, in order |
| RangeCoalescing.NormalHas | apps/external/cpp-httplib/httplib.h:6209-6240 | The normal form of a range has the bytes the range asks for |
| RangeCoalescing.JoinedIsRight | apps/external/cpp-httplib/httplib.h:6148-6189 | For sorted ranges in normal form the loop keeps the covered bytes and, if no range is repeated, leaves a gap between neighbours |
| RangeCoalescing.CoalesceRanges | apps/external/cpp-httplib/httplib.h:6138-6192 | For ranges in any order, with ends missing or out of bounds, the result has the bytes of the valid ones if and only if none of them, in sorted order, begins before the first; ranges in normal form also end up apart |
| RangeCoalescing.JoinedIff | apps/external/cpp-httplib/httplib.h:6148-6189 | The loop over sorted ranges of any form keeps the bytes of the valid ones if and only if none begins before the first |
| RangeCoalescing.Request.RangeError | apps/external/cpp-httplib/httplib.h:6194-6256 | Refuses exactly the ranges that are too many, out of bounds or overlap too often; otherwise the new ranges cover the bytes asked for, in bounds and apart |
| RangeCoalescing.OverlappingCounts | apps/external/cpp-httplib/httplib.h:6242-6250 | What is counted against the limit of two are the ranges that share a byte with an earlier one |
| QueryString.EncodeQueryComponent | apps/external/cpp-httplib/httplib.h:6875-6927 | The encoding of the component |
| QueryString.DecodeQueryComponent | apps/external/cpp-httplib/httplib.h:6929-6952 | The decoding of the component |
| QueryString.ComponentRoundTrip | apps/external/cpp-httplib/httplib.h:6875-6952 | Decoding undoes encoding, for every byte string |
| QueryString.EncodedIsQuery | apps/external/cpp-httplib/httplib.h:6875-6927 | The encoding has only characters that a query may have |
| QueryString.DecodeFronts | apps/external/cpp-httplib/httplib.h:6929-6952 | A plus is a space, a percent sign with two digits in either case the byte they name, and anything else itself |
| QueryString.ParamsToQueryStr | apps/external/cpp-httplib/httplib.h:5546-5556 | The printed pairs with & between them |
| QueryString.Split | apps/external/cpp-httplib/httplib.h:3317-3337 | The trimmed pieces that are not blank |
| QueryString.PieceIsTrimmed | apps/external/cpp-httplib/httplib.h:3317-3337 | A piece begins and ends with something other than space and tab, and only these are cut off |
| QueryString.PiecesOfQuery | apps/external/cpp-httplib/httplib.h:3317-3337 | Splitting a printed query gives the printed pairs |
| QueryString.PrintedTwice | apps/external/cpp-httplib/httplib.h:5562-5564 | Different pairs are printed differently, so the cache drops only repeated pairs |
| QueryString.ParseQueryText | apps/external/cpp-httplib/httplib.h:5558-5583 | The result is sorted by key; as a multiset it is exactly the decoded pairs of the first occurrences of the pieces that have a key; pairs of the same key keep the order of their pieces |
| QueryString.LessIff | apps/external/cpp-httplib/httplib.h:5576-5578 | One key is less than another if and only if it is a proper prefix or has the smaller byte where they first differ |
| QueryString.EmplaceInserts | apps/external/cpp-httplib/httplib.h:5576-5578 | Adding a pair keeps the order by key, adds exactly that pair, and puts it behind those of its key |
| QueryString.ParsedIsFirsts | apps/external/cpp-httplib/httplib.h:5558-5583 | The multimap of any pieces is sorted and has exactly the first occurrences that have a key, those of a key in order |
| QueryString.QueryRoundTrip | apps/external/cpp-httplib/httplib.h:5546-5583 | Parsing a printed multimap keeps each pair with a key once; it gives the multimap back if and only if no pair is repeated and no key is empty |
| WorkerPool.JobsAreConserved | apps/external/cpp-httplib/httplib.h:872-955 | In every interleaving accepted jobs are the started ones and the queue, in order; a started job is finished or with exactly one worker; a positive limit is kept |
| WorkerPool.ShutdownRunsAll | apps/external/cpp-httplib/httplib.h:899-935 | If nothing is enqueued after shutdown, every accepted job has run once all workers have left |
| WorkerPool.NothingRunsAfter | apps/external/cpp-httplib/httplib.h:912-955 | Once all workers have left, no job is started or finished in any continuation |
| WorkerPool.AllRunIffNoneLate | apps/external/cpp-httplib/httplib.h:886-955 | In every run, once all workers have left every accepted job has run if and only if none has been offered since the last exit |
| WorkerPool.OfferRefusedIff | apps/external/cpp-httplib/httplib.h:886-897 | An offer is refused exactly at a full positive limit, and otherwise last in the queue |
| WorkerPool.CanEnd | apps/external/cpp-httplib/httplib.h:899-955 | After a shutdown, from every state some run of wakes and finishes ends with all workers gone and all accepted jobs run |
| ClientSocket.StepKeeps | apps/external/cpp-httplib/httplib.h:9119-9239 | The in-flight count is the number of live calls of send_, and its thread is the owner of the request mutex |
| ClientSocket.CloseIsSafe | apps/external/cpp-httplib/httplib.h:9064-9081 | A close is made with nothing in flight or by the thread whose request it is |
| ClientSocket.NeverClosedUnderOthers | apps/external/cpp-httplib/httplib.h:9119-9239 | In every interleaving of nested sends and stops, every assertion in close_socket holds where it is reached |
| ClientSocket.EveryCloseIsSafe | apps/external/cpp-httplib/httplib.h:9119-9239 | So it is for every client from its construction on |
| ClientSocket.FlagUntilBegin | apps/external/cpp-httplib/httplib.h:9133-9136 | A raised flag is still up after a run without another stop if and only if no request has begun in it |
| ClientSocket.StopWhenIdle | apps/external/cpp-httplib/httplib.h:11093-11114 | A stop with nothing in flight closes the socket at once |
| ClientSocket.StopTakesEffectIff | apps/external/cpp-httplib/httplib.h:9133-9239 | After a stop during a request, the end of a request closes the open socket if and only if that request asks for it or none has begun since the stop |
| ClientSocket.BeginLaw | apps/external/cpp-httplib/httplib.h:9133-9200 | A request that begins forgets an earlier stop and has an open socket, the old one if it lives, or gives up |
| ClientSocket.ResponseCloses | apps/external/cpp-httplib/httplib.h:9625-9631 | After a response that asks for it the socket is closed |
| ClientSocket.EndLaw | apps/external/cpp-httplib/httplib.h:9212-9226 | The end of a request takes it from the count and closes the socket exactly when asked |
| CommandRing.StepKeeps | apps/src/audio/AudioEngine.cpp:419-442 | Every load, slot access and store keeps the ring's invariant |
| CommandRing.RingIsFifo | apps/src/audio/AudioEngine.cpp:419-442 | In every interleaving the applied commands are a prefix of the accepted ones, no unread slot is overwritten, and published read <= local read <= write <= published read + 128 |
| CommandRing.RunGrows | apps/src/audio/AudioEngine.cpp:419-442 | What was accepted and applied stays so in every continuation |
| CommandRing.DrainIsComplete | apps/src/audio/AudioEngine.cpp:433-442 | Whatever the producer does meanwhile, a drain that is over has applied everything accepted when it looked at the write index |
| CommandRing.DroppedMeansFull | apps/src/audio/AudioEngine.cpp:421-426 | In every interleaving a command is dropped only if at some earlier moment 128 accepted commands were not yet published as read and none has been accepted since |
| Voices.Victim | apps/src/audio/AudioEngine.cpp:467-531 | The sounding voice that is least under releasing first, lower level, older, lower index |
| Voices.StartPlays | apps/src/audio/AudioEngine.cpp:533-574 | A note goes to where it sounds, else to a silent voice, else to the victim; it starts from silence as the youngest, and no other voice changes |
| Voices.StopReaches | apps/src/audio/AudioEngine.cpp:459-464 | Stopping a note releases the voice that sounds with it, and nothing else |
| Voices.StopAllReaches | apps/src/audio/AudioEngine.cpp:452-457 | Stopping note 0 releases every sounding voice |
| Voices.StartKeeps | apps/src/audio/AudioEngine.cpp:552-574 | Starting a note keeps: sounding voices have different notes and different start orders below the counter |
| Voices.StopKeeps | apps/src/audio/AudioEngine.cpp:576-586 | So does stopping one |
| Voices.FrameKeeps | apps/src/audio/AudioEngine.cpp:342-361 | So does rendering a frame |
| Voices.Run | apps/src/audio/AudioEngine.cpp:323-364 | The invariant holds after every run of commands and frames |
| Voices.NamelessBreaks | apps/src/audio/AudioEngine.cpp:265-268 | Starting a note keeps the invariant if and only if it has an id |
| Voices.ListedIff | apps/src/audio/AudioEngine.cpp:588-612 | A status lists exactly the sounding notes |
| Voices.ListedOnce | apps/src/audio/AudioEngine.cpp:588-612 | It lists each of them once |
| Voices.HeldForItsTime | apps/src/audio/AudioEngine.cpp:342-362 | A timed note is held for exactly its number of frames and then released |
| Voices.ReleaseEnds | apps/src/core/audio/Envelope.cpp:61-75 | A released voice is free after n frames if and only if n steps reach the level it was released at |
| NoteLife.StartsAsAsked | apps/src/audio/AudioEngine.cpp:552-574 | A started note sounds with the id, waveform, frequency and amplitude asked for, brought into range, and rises from silence |
| NoteLife.StealsLeast | apps/src/audio/AudioEngine.cpp:467-550 | When all slots sound, the note takes one that is being let go if there is one, the quietest of these, the oldest of equals |
| NoteLife.AttackRises | apps/src/core/audio/Envelope.cpp:43-59 | An untimed note rises by equal steps and then stays at full level |
| NoteLife.AtOnce | apps/src/core/audio/Envelope.cpp:43-75 | Without an attack time it is at full level after a frame, without a release time it ends with the next |
| NoteLife.FramesAreNearest | apps/src/audio/AudioEngine.cpp:552-574 | The number of frames is the nearest one to the time asked for, halves up, and at least one |
| NoteLife.TimedNoteIsHeld | apps/src/audio/AudioEngine.cpp:323-364 | A note of d seconds sounds for the nearest number of frames and is then let go, when no command comes between |
| NoteLife.UntimedNoteIsHeld | apps/src/audio/AudioEngine.cpp:323-364 | A note without a time is held until a command lets it go |
| AudioEngines.AudioEngine.SelectVoiceIndexToSteal | apps/src/audio/AudioEngine.cpp:467-531 | The victim |
| AudioEngines.AudioEngine.SelectVoiceIndexForNoteOn | apps/src/audio/AudioEngine.cpp:533-550 | The slot a note goes to |
| AudioEngines.AudioEngine.ApplyCommand | apps/src/audio/AudioEngine.cpp:444-465 | The table after the command |
| AudioEngines.AudioEngine.EnqueueCommand | apps/src/audio/AudioEngine.cpp:419-431 | Accepted exactly when fewer than 128 are pending, and then last in the queue |
| AudioEngines.AudioEngine.EnqueueNoteOn | apps/src/audio/AudioEngine.cpp:247-273 | A note without an id gets the next one, which is not zero; with fewer than 128 commands pending the last one is then the note that was asked for, with that id |
| AudioEngines.AudioEngine.DrainCommands | apps/src/audio/AudioEngine.cpp:433-442 | Applies all pending commands in order |
| AudioEngines.AudioEngine.Render | apps/src/audio/AudioEngine.cpp:323-364 | The run of the pending commands and then the frames, which leaves each slot as that many frames of its own |
| AudioEngines.AudioEngine.BuildStatusSnapshot | apps/src/audio/AudioEngine.cpp:588-612 | The ids of the sounding notes |

## Left out

- The 6502 decoder, the sound unit, the joypad and the window of the NES emulator: the processor is any program that
  makes accesses and charges fewer than 256 dots per instruction (the loop counter has eight bits); the sound unit and
  the joypad answer from a stream of inputs; the profiling macros and the quit event are left out.
- Palette memory has 256 cells in the model, so that every index the code can form is inside; the original array has
  64, and what lies behind it is not modelled. So has the table from palette entries to screen colours, which is asked for
  any byte a cell holds; the model's is total. Bank numbers beyond the ROM are left to an arbitrary memory function.
- The three compile-time copies of the batch loop and the two copies of the span loops, which differ in what they write
  or in whether they look at sprites, are one copy each with a flag. Registers are grouped into records.
- The scratch variable `tmp` of the emulator is local to each use.
- WholePicture.PictureIsPlane: V and T have fifteen bits, as every store to the ports leaves them; accesses during the
  picture (split screens) are not part of it, since `PostponedDots.LazyRunIsEagerRun` is what covers them.
- Dynamic Huffman blocks and preset dictionaries: the reference inflater refuses them, since the encoder writes neither.
- Memory growth, failed allocation and integer limits on lengths in stb; the CRC-32 and the chunk layout of PNG; BMP;
  the DCT, colour conversion and quantisation of JPEG and the other segments of its head; the conversion of floats to
  RGBE.
- RunLengthWriting.WriteContext.WriteTga: the 18-byte header and the branch that writes the pixels without run lengths are
  not modelled, since neither decides anything.
- PngFilter.BestFilter: the estimate is an unbounded sum; the original sums into an int, which wide rows could overflow.
- ChunkedTransfer.Transfer: the buffer size is the same for every call; `ChunkedRoundTrip.ChunkedRoundTrip` has any sizes.
- JpegWriting.WriteScan: values beyond 15 bits (16 for a DC difference), for which the original indexes behind its tables,
  are excluded.
- PngFilter.EncodeLine: images of zero width are excluded: the original would write one pixel into an empty row buffer.
- JpegWriting.JpegWriter.WriteBits: bits shifted out above bit 31 are dropped, as 32-bit machines do.
- The parser's own reading of a header line into a part (`parse_header`, the two regular expressions, the disposition
  parameters) is an arbitrary function that may refuse a line, of which `FormHeaders` has one example; text behind the
  closing boundary other than one line end is left out.
- Failing writes, compression, reading of trailer fields, and shutdown in the chunked sink and decoder; a decoder that
  has reported an error is not used again.
- ChunkedRoundTrip.ChunkedRoundTrip: a write is shorter than the largest unsigned long.
- `std::sort` is an insertion sort; a multimap is the list of its pairs by key.
- WorkerPool.JobsAreConserved: waking up is a step that may happen at any time, so lost or spurious wake-ups are
  covered, but nothing is said about how soon a job runs. Exceptions from jobs are left out.
- ClientSocket.NeverClosedUnderOthers: TLS, proxies, `open_stream` and the destructor are left out.
- CommandRing.RingIsFifo: loads and stores are atomic and in program order, which the acquire and release orders of
  the original give; the 64-bit indices do not wrap, nor do the id and order counters.
- Voices.ReleaseEnds: envelope levels are real numbers, without rounding; oscillators, mixing and gain are left out.
- Opening devices, the audio manager, sockets, TLS, routing, the simulation core and everything else in the repository.
