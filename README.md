# stress-weston core, modelled in Dafny

stress-weston is a GPU stress harness for the Weston compositor. It reads
its run parameters from a text file, then draws one of six scenes frame
after frame. The scenes are a dial, pyramids drawn in one call, in several
calls or in batches, a textured quad, and a long-running fragment shader.
Keys change the scene, the shader loop counts and the size of the pyramid
grid. Every frame, `calculate_fps` measures the frame rate and, when
recording is on, logs the time of every frame to a metrics file.

The model covers the parts of that core that compute something:

- `ConfigParse` (`config.dfy`) models the parameter file. It covers
  `safeParse`, the C library's `strtol` and `(int)` cast it relies on,
  the stream semantics of `std::getline`, and the eighteen fields
  `read_config_file` sets.
- `DrawCases` (`draw_cases.dfy`) models the scene enumeration, the
  scene chosen by the parameter file and the scene cycle of
  `swap_draw_case`.
- `Scenes` (`scenes.dfy`) models the run-time controls as a class
  `Controls` over the program's globals. Its methods are the
  keyboard-driven operations: switching the scene, adding and
  shrinking shader loops, and adding and removing pyramids.
- `Pyramids` (`pyramids.dfy`) models `generate_pyramid_buffers`. It
  covers the three vertex streams, the order of the nested loops and
  the back-to-front drawing that order gives.
- `DigitLayout` (`digits.dfy`) models the frame-rate strip of
  `draw-digits.cpp`. It covers how many quads are drawn, where each quad
  goes and which glyph it shows.
- `Textures` (`textures.dfy`) models `checkerBoardTexture` and the pixel
  staging of `registerTexture`, including the three alpha styles and
  the signed `char` comparisons they make.
- `FrameLog` (`frame_log.dfy`) models the metrics log as a sequence of
  tokens: the header, rows and row ends.
- `FrameTiming` (`frame_timer.dfy`) models `calculate_fps`:
  - `TickSpec` is one call as a function of the state of its statics.
  - `Inv` is the invariant every call keeps.
  - `FrameTimer` is a class with the static buffers as arrays and
    `Tick` as the method, proved against `TickSpec`.

Two places where the code does something other than a first reading of
it suggests. The model follows the code in both:

- The `,\n` written before every flush after the first ends the previous
  batch's last row. It does not add a blank line between batches. So the
  log stays one row per line (`FrameLog.AppendBatch`,
  `FrameTiming.SeparatorMatchesRows`).
- In `registerTexture`, an alpha style other than 0, 1 or 2 decodes no
  pixel at all. The staging buffer stays at its `memset` value of 255
  (`Textures.RegisterTexture`).

## Model

| member | source | states |
|---|---|---|
| DrawCases.SceneFromConfig | main.cpp:671-698 | the scene line always yields a scene that has a renderer: a value 0..5 selects that scene, every other value falls back to the dial |
| DrawCases.NextScene | main.cpp:466-503 | a scene with a renderer moves to a different scene with a renderer; any other value is left unchanged |
| DrawCases.IterateFromDial | main.cpp:466-503 | starting from the dial, the k-th scene-key press reaches the scene at cycle position k mod 6 |
| DrawCases.IterateSplit | main.cpp:466-503 | n + m presses are n presses followed by m presses |
| DrawCases.CycleVisitsEveryScene | main.cpp:466-503 | every scene with a renderer is reached from the dial, at its own cycle position |
| DrawCases.CycleHasPeriodSix | main.cpp:466-503 | k presses bring a selectable scene back exactly when k is a multiple of 6; an unselectable value never moves |
| ConfigParse.ToInt32 | main.cpp:101 | the `(int)` cast of a `long` lands in the 32-bit range and keeps every value already in it |
| ConfigParse.Prefix | main.cpp:101 | `substr(0, max_digits)` is a prefix of the line, no longer than `max_digits` when that is non-negative |
| ConfigParse.StrtolPrefixBound | main.cpp:101 | what `strtol` reads from at most n <= 9 characters is strictly between -10^n and 10^n |
| ConfigParse.Strtol | main.cpp:101 | `strtol` in base 10 stays within the range of `long`, is negative only when a minus sign follows the leading white space |
| ConfigParse.StrtolNoDigit | main.cpp:101 | text with no digit after the leading white space and an optional sign reads as 0 |
| ConfigParse.StrtolOfDigits | main.cpp:101 | a run of 1 to 9 digits followed by a non-digit is read by `strtol` as its decimal value |
| ConfigParse.SafeParse | main.cpp:96-114 | the result is never negative and never below `minvalue`; with 0..9 digits it stays below 10^max_digits unless `minvalue` is larger |
| ConfigParse.Raise | main.cpp:103-111 | the two clamps: the result is at least 0 and at least `minvalue`, equals the parsed value whenever that already meets both, and is otherwise 0 or `minvalue` |
| ConfigParse.SafeParseOfStrtol | main.cpp:96-114 | when `strtol` reads a non-negative `int`, the result is that value raised to `minvalue` |
| ConfigParse.SafeParseReadsOnlyPrefix | main.cpp:101 | characters after the first `max_digits` never change the result |
| ConfigParse.SafeParseDecimal | main.cpp:96-114 | a line starting with 1 to 9 digits, all inside the first `max_digits` characters (any number of them when `max_digits` is negative), parses to their decimal value, raised to `minvalue`; for example "1920" under `max_digits` 5 gives 1920 |
| ConfigParse.SafeParseNegative | main.cpp:103-106 | a minus sign ahead of the digits always gives 0, raised to `minvalue` |
| ConfigParse.SafeParseEmpty | main.cpp:96-114 | an empty line parses to the clamp alone |
| ConfigParse.GetLine | main.cpp:639 | one `std::getline` succeeds exactly when the stream is still good and a line remains; it then yields that line and moves on by one; on failure it stays put and leaves `line` as it was or empty; eofbit, once set, stays set |
| ConfigParse.GetLineConsistent | main.cpp:639-640 | one more `getline` keeps the stream state and the values read in line with the closed-form reading of the file |
| ConfigParse.ReadLines | main.cpp:639-750 | n `getline` calls leave n values of `line`; the stream never moves past the last line or further than the number of calls, and failbit is only ever set together with eofbit |
| ConfigParse.ReadLinesMatchLineRead | main.cpp:639-750 | n successive `getline` calls give exactly the file's lines; past the end they give "" if the last line ended in a newline, else the last line again |
| ConfigParse.ParseSettings | main.cpp:636-759 | every parameter parsed from the eighteen lines lies in the range its digit count and clamp allow, and the scene is selectable |
| ConfigParse.ReadConfig | main.cpp:636-759 | every parameter read from any file, including a short or empty one, lies in its range |
| ConfigParse.EmptyConfig | main.cpp:636-759 | an empty parameter file gives every field its clamp: a 0 x 0 window, every flag off, the dial scene, a fetch radius of 1, a 1 x 1 x 1 grid in batches of 1, zero loop counts and no frame limit |
| ConfigParse.TruncatedConfigRepeatsLastLine | main.cpp:636-759 | when a file stops early without a final newline, every missing line repeats the file's last line |
| Scenes.AddedLoops | main.cpp:508-531 | adding never lowers a count; the dials count changes exactly for the dial scene, the short-shader count exactly for the three pyramid scenes, the long-shader count exactly for the long-shader scene; a scene without a count of its own changes nothing |
| Scenes.Lowered | main.cpp:535-567 | a count lowered by a step is that much smaller, clamped at 0 |
| Scenes.ShrunkLoops | main.cpp:535-567 | shrinking keeps non-negative counts non-negative and never raises one; the dials count changes only for the dial scene, the short-shader count only for the pyramid scenes, and the long-shader scene and every scene without a count of its own (the `default` label falling into the long-shader case) lower the long-shader count by 50, clamped at 0, and nothing else |
| Scenes.ShrinkUndoesAdd | main.cpp:508-567 | shrinking right after adding restores the counts exactly when the scene has a count of its own, or when the long-shader count is 0 |
| Scenes.Grown | main.cpp:571-581 | adding pyramids always enlarges a dimension |
| Scenes.Reduced | main.cpp:585-600 | removing pyramids never leaves a dimension below 3 and takes five off whenever that stays above 3 |
| Scenes.ReduceUndoesGrow | main.cpp:571-600 | removing after adding gives the old dimension back, raised to 3 |
| Scenes.ReduceCanGrow | main.cpp:585-600 | removing pyramids enlarges a dimension exactly when it is below 3 and keeps it exactly when it is 3 |
| Scenes.Controls.constructor | main.cpp:716-745 | the controls start from the parsed parameters, with pyramid streams built for that grid |
| Scenes.Controls.SwapDrawCase | main.cpp:466-503 | the scene becomes the next one of the cycle, whatever scene is requested |
| Scenes.Controls.AddShaderLoops | main.cpp:508-531 | the loop counts become `AddedLoops` of the old ones, and the controls stay valid |
| Scenes.Controls.ShrinkShaderLoops | main.cpp:535-567 | the loop counts become `ShrunkLoops` of the old ones, and the controls stay valid |
| Scenes.Controls.AddPyramids | main.cpp:571-581 | each dimension grows by five, the streams are rebuilt for the new grid, and the scene and loop counts are unchanged |
| Scenes.Controls.RemovePyramids | main.cpp:585-600 | each dimension becomes `Reduced` of the old one, the streams are rebuilt, and the scene and loop counts are unchanged |
| Scenes.Controls.GeneratePyramidBuffers | main.cpp:254-320 | fresh streams holding one position block, one colour block and one transform block per pyramid; the loop counts are not read or written |
| Pyramids.ColourSizeOverflow | main.cpp:265-267 | the 32-bit stream sizes overflow from a 311-cube grid on for colours and from a 342-cube grid on for positions and transforms |
| Pyramids.CellAt | main.cpp:275-279 | the cell of the q-th pyramid visited keeps x and y inside the grid and z at most `z_count`; the first `y_count` pyramids are the first row of the back layer |
| Pyramids.CellAtClosedForm | main.cpp:273-292 | the cell the nested loops reach at step q has y as the fastest digit, then x, with z counting down from `z_count` |
| Pyramids.GridCellNext | main.cpp:273-292 | the closed form advances exactly as the loops do |
| Pyramids.GridCellRanges | main.cpp:273-292 | x and y stay within the grid at every step, and z is `z_count` less the number of finished layers |
| Pyramids.DrawnCells | main.cpp:273-292 | the q-th cell visited lies in the grid exactly when q is below `x_count * y_count * z_count` |
| Pyramids.GridCellInGrid | main.cpp:273-292 | the same, for the closed form |
| Pyramids.CellOfOrdinal | main.cpp:273-292 | every grid cell is visited, at the position `Ordinal` gives |
| Pyramids.OrdinalOfCell | main.cpp:273-292 | `Ordinal` inverts the visiting order |
| Pyramids.BackToFront | main.cpp:273-292 | a later pyramid never lies in a deeper layer than an earlier one |
| Pyramids.FillTransforms | main.cpp:265-292 | a fresh stream of 54 floats per pyramid, each float the offset of its pyramid's cell on its axis |
| Pyramids.FillLayer | main.cpp:275-291 | one pass of the x loop writes the transforms of a whole layer in draw order |
| Pyramids.FillRow | main.cpp:277-290 | one pass of the y loop writes the transforms of a whole row in draw order |
| Pyramids.FillPyramid | main.cpp:279-289 | the 18 vertices of one pyramid receive its cell's offsets, and nothing else is written |
| Pyramids.TransformAt | main.cpp:283-285 | every transform float is a whole number of 3-unit grid steps, and the x and y offsets stay inside the grid's extent |
| Pyramids.TransformInBlock | main.cpp:273-292 | every float of pyramid q's block carries q's offset on that float's axis |
| Pyramids.FillCyclic | main.cpp:297-319 | a fresh stream of n floats, each equal to the template float at its index modulo the template length |
| Pyramids.CyclicBlock | main.cpp:297-319 | such a stream holds one whole copy of the template per pyramid |
| DigitLayout.FirstDot | draw-digits.cpp:117-125 | the index of the first decimal point, with no point before it |
| DigitLayout.GlyphCount | draw-digits.cpp:115-125 | the number of quads exceeds the string length by at most one, and is 0 only for an empty string |
| DigitLayout.CountGlyphs | draw-digits.cpp:115-125 | the count is the whole string, or the characters up to the first point plus two |
| DigitLayout.GlyphCountBound | draw-digits.cpp:115-125 | the count exceeds the string length by at most one, and does so exactly when the point is the last character |
| DigitLayout.DrawableExactly | draw-digits.cpp:153-159 | a string of digits and points reads no character past its end exactly when it does not end in its first point |
| DigitLayout.GlyphInAtlas | draw-digits.cpp:156-159 | the glyph index lies in the 11-entry atlas exactly for '0'..':' and the point |
| DigitLayout.LayoutDigits | draw-digits.cpp:115-202 | n is the glyph count; fresh zeroed buffers of 18 and 12 floats per quad hold exactly the specified position and texture floats |
| DigitLayout.LayoutQuad | draw-digits.cpp:162-187 | one quad's 18 position floats and 12 texture floats are written from the atlas, and nothing else changes |
| DigitLayout.LayoutVertex | draw-digits.cpp:165-186 | one vertex's three position floats and two texture floats are written, and nothing else changes |
| DigitLayout.VertexFloat | draw-digits.cpp:165-174 | the y and z floats of every vertex are the template's; the x float of a quad that is not shifted is the template's moved right one pitch per position |
| DigitLayout.TexcoordFloat | draw-digits.cpp:156-184 | every quad's glyph is in the atlas; each v is the template's, and each u is the start or the end of that glyph's range |
| DigitLayout.OnlyLastQuadShifted | draw-digits.cpp:167-171 | of the quads drawn, only the last is shifted, and only when the string has a point |
| DigitLayout.EvenSpacing | draw-digits.cpp:165 | neighbouring unshifted quads are exactly one pitch (width plus spacing) apart |
| DigitLayout.PointGap | draw-digits.cpp:165-171 | the quad after the point sits half a digit width closer than one pitch to the point's quad |
| DigitLayout.HeightAndDepthCopied | draw-digits.cpp:173-174 | the y and z floats of every quad are the template's |
| DigitLayout.TexcoordsFollowCharacter | draw-digits.cpp:176-184 | two quads showing the same character get the same texture coordinates |
| Textures.Signed | shaders.cpp:141 | a byte read through a signed `char` is in -128..127 and congruent to the byte modulo 256 |
| Textures.SignedAtLeastFive | shaders.cpp:141 | `>= 5` on a signed `char` accepts exactly the bytes 5..127 |
| Textures.SignedMinusOne | shaders.cpp:155 | `== -1` on a signed `char` accepts exactly the byte 0xFF |
| Textures.CheckerTiles | shaders.cpp:71 | pixels of the same 8 x 8 tile share a grey level |
| Textures.CheckerAlternates | shaders.cpp:71 | moving eight rows or eight columns inverts the grey level |
| Textures.AsWrittenSlot | shaders.cpp:62-75 | as declared, pixel (i, j) of a column inside the declared height lies in row block i, rows being `height` pixels long |
| Textures.AsWrittenInBoundsOnlyIfSquare | shaders.cpp:62-77 | every index the loops use is inside the declared `[width][height]` bounds exactly when the image is square or empty |
| Textures.AsWrittenWideOverlaps | shaders.cpp:62-77 | in a 16 x 8 image, pixel (0, 8) is written to the same place as pixel (1, 0) |
| Textures.AsWrittenTallOverruns | shaders.cpp:62-77 | in an 8 x 16 image, the last pixel is written past the end of the array |
| Textures.CheckerboardTexture | shaders.cpp:62-77 | a fresh height x width x 4 image whose every byte is the checker grey level, with alpha 255 |
| Textures.CheckerRow | shaders.cpp:69-76 | one row receives the pattern, and every other row is unchanged |
| Textures.Alpha | shaders.cpp:135-162 | styles 1 and 2 set alpha to 0 or to the red byte; any other style leaves 255 |
| Textures.StagedByte | shaders.cpp:119-162 | a style other than 0, 1, 2 leaves every byte 255; style 0 keeps alpha 255; styles 1 and 2 give alpha 0 or the red byte; the first byte of each pixel is its red byte |
| Textures.StyleOneTransparent | shaders.cpp:141-144 | style 1 makes a pixel transparent exactly when its three channels are all 5..127, or its red byte is 0 |
| Textures.StyleTwoTransparent | shaders.cpp:155-158 | style 2 makes a pixel transparent exactly when it is pure white, or its red byte is 0 |
| Textures.VisibleAlphaIsRed | shaders.cpp:141-158 | under styles 1 and 2 a visible pixel's alpha is its red byte; style 0 keeps alpha 255 |
| Textures.StagePixel | shaders.cpp:137-147 | one pixel's colour bytes are written, its alpha follows the style rule, and nothing else changes |
| Textures.DecodePixels | shaders.cpp:124-162 | every byte of the staging buffer ends up as the staged byte of its pixel |
| Textures.RegisterTexture | shaders.cpp:119-163 | a fresh buffer of four bytes per pixel, each byte the staged byte; any style other than 0, 1, 2 leaves all bytes 255 |
| FrameLog.RecordsAppend | main.cpp:203-207 | the rows of a concatenation are the rows of each part, in order |
| FrameLog.RecordsOfBatch | main.cpp:203-207 | a flush writes exactly the first n buffered frames, in order, one row each |
| FrameLog.AppendBatch | main.cpp:197-207 | a flush keeps the log one row per line exactly when `,\n` is written before it if and only if rows came before |
| FrameTiming.Initial | main.cpp:120-134 | the statics before the first call satisfy the invariant |
| FrameTiming.Allocate | main.cpp:147-189 | allocation happens once, on the first recorded frame: it marks the buffers ready, restarts the index, takes the second clock reading as the previous stamp and appends the header to the log; a timer already allocated, or not recording, is left unchanged; buffers, frame id and recording flag are untouched |
| FrameTiming.Flush | main.cpp:192-210 | a flush only appends to the log, leaves the buffers and frame id as they are, and happens only with recording on and a full window, which it empties |
| FrameTiming.Store | main.cpp:214-223 | with recording on, the frame's id (mod 2^32) and a 32-bit time go to the write index, which advances by one, and every other slot is unchanged; with recording off nothing changes |
| FrameTiming.Rate | main.cpp:226-241 | only the rate and the interval start change; either nothing changes, or the interval restarts at `now`, the frame counter is 0 and `benchmark_time` is the low 32 bits of `now` |
| FrameTiming.TickSpec | main.cpp:118-249 | every call moves the frame id on by one, keeps the recording flag, and only appends to the log |
| FrameTiming.SeparatorMatchesRows | main.cpp:197-200 | the `frameid > 500` test writes `,\n` exactly when earlier rows exist |
| FrameTiming.RecordingKeepsInv | main.cpp:141-223 | anchoring, allocation, flush and store keep the invariant |
| FrameTiming.TickKeepsInv | main.cpp:118-249 | every call keeps the invariant: well-formed log, index within the buffers, frame ids consecutive modulo 2^32 |
| FrameTiming.StoreInBounds | main.cpp:214-223 | with recording on, every store lands in slots 0..498 and holds the frame id modulo 2^32 and the time since the previous recorded frame modulo 2^32 (0 for the first) |
| FrameTiming.StoreKeepsIds | main.cpp:214-223 | a store continues the run of consecutive frame ids in the buffer |
| FrameTiming.FirstRecordedTimeIsZero | main.cpp:147-223 | the first recorded frame time is the gap between the allocation's clock reading and itself: 0 |
| FrameTiming.FlushWritesWindow | main.cpp:192-210 | a flush happens exactly when the index reaches 499 and appends the 499 buffered rows with consecutive frame ids; otherwise the log is unchanged |
| FrameTiming.NoRecordingNoLog | main.cpp:147-223 | with recording off, the buffers and the log are never touched |
| FrameTiming.RateWindow | main.cpp:226-241 | the rate, the interval start and the window counters change exactly when more than a second has passed on the unsigned clock difference; then the rate is the frames over the elapsed seconds, the frame counter is 0 and `benchmark_time` is `now` modulo 2^32, the `uint32_t` field's value |
| FrameTiming.FirstCallKeepsRate | main.cpp:141-143 | the first call anchors the interval at its own reading, so it never changes the rate |
| FrameTiming.FrameTimer.constructor | main.cpp:120-134 | the statics start as `Initial`, with fresh 500-slot buffers |
| FrameTiming.FrameTimer.FlushLog | main.cpp:197-207 | the log gains the separator when more than 500 frames have passed, then the 499 buffered rows |
| FrameTiming.FrameTimer.StartRecording | main.cpp:147-189 | the state becomes `Allocate` of the old one |
| FrameTiming.FrameTimer.FlushWindow | main.cpp:192-210 | the state becomes `Flush` of the old one |
| FrameTiming.FrameTimer.StoreFrame | main.cpp:214-223 | the state becomes `Store` of the old one |
| FrameTiming.FrameTimer.UpdateRate | main.cpp:226-241 | the state and the window counters become `Rate` of the old ones, `benchmark_time` keeping the low 32 bits of `now` |
| FrameTiming.FrameTimer.Tick | main.cpp:118-249 | the state and the window follow `TickSpec`, the invariant is kept, the rate returned is the current fps, and `time_now` is the clock in milliseconds |

## Left out

- I/O is modelled by parameters. The clock readings of `gettimeofday`
  are the parameters `now` and `again` of `Tick`. The parameter file is
  a `TextFile` value. The pixels `HEADER_PIXEL` decodes are a sequence
  of `Rgb` values. The string that `ostringstream` makes from the frame
  rate is the input of `LayoutDigits`.
- The metrics file name, its date-stamped construction and the
  `ofstream` are not modelled. The log is a sequence of tokens, and the
  numbers are not formatted as text.
- `printf` and every OpenGL call are not modelled. This covers uploading
  and drawing the buffers, and the texture parameters.
- Floating point is not modelled:
  - Loop counts and pyramid transforms are integers, because the source
    only stores whole numbers in them.
  - The digit layout and the frame rate use exact reals, not `float`
    rounding.
- FrameTiming.FrameTimer.Tick: `time_now` is `now / 1000` as an unbounded
  integer. The source converts a `double` to `uint32_t`, which is
  undefined once the clock in milliseconds exceeds 2^32, as any current
  `gettimeofday` reading does.
- The recording flag is fixed when the timer is created. The source reads
  it once, from the parameter file, before the first frame.
- The lazy `new` of the two frame buffers is modelled as buffers created
  in the constructor, plus a `ready` flag set on the first recorded frame.
- Pyramids.FillTransforms: the model computes stream sizes and the
  index `3 * pyramid_index` exactly. The source computes them in 32-bit
  `int`, so they overflow once 54 · x · y · z passes 2^31 - 1, from a
  342 × 342 × 342 grid on (`Pyramids.ColourSizeOverflow`). The parameter
  file allows dimensions up to 99999. The size of `new[]` is then
  undefined behaviour, which the model does not capture.
- Pyramids.FillCyclic: the copy loops bound their index by the same
  32-bit products, so the same grids overflow them.
- Scenes.Controls.GeneratePyramidBuffers: the colour stream's size,
  72 · x · y · z in `int`, overflows first, from a 311 × 311 × 311 grid
  on (`Pyramids.ColourSizeOverflow`). The model allocates the exact size
  for every grid and requires no bound on it.
- Scenes.Controls.AddPyramids: about 62 presses from a 5 × 5 × 5 grid
  reach that overflowing size. The model goes on rebuilding exact
  streams. It also does not wrap the dimensions themselves, which
  overflow only after hundreds of millions of presses.
- Scenes.Controls.constructor takes the parsed parameters
  (`ConfigParse.Settings`) rather than the file. `ConfigParse.ReadConfig`
  relates the two.
- DigitLayout.LayoutDigits requires that every counted character is a
  digit or a point. `ostringstream` can produce 'e', '+' or "inf" for
  extreme frame rates, and those index the atlas out of range in the
  source.
- `simple-egl-windowing.h` and the scene renderers (`simple-dial.cpp`,
  `multi-draw.cpp`, `simple-texture.cpp`, `long-shader.cpp`) are not part
  of this model. They are GL and Wayland calls with no logic of their own
  to verify.
- Keyboard dispatch and the main render loop are not part of this model.
  The operations they call are modelled one by one in `Scenes.Controls`.

## Findings

| source | as written | input that shows it | evidently intended | confidence | as-written member | corrected member |
|---|---|---|---|---|---|---|
| shaders.cpp:62-77 | the image is declared `[width][height][4]` but indexed `[row < height][column < width]`, so rows are `height` pixels long while the loops write `width` of them | width 16, height 8: pixel (0, 8) overwrites pixel (1, 0); width 8, height 16: the last pixel lands past the end of the array | an image declared `[height][width][4]`, so each row holds `width` pixels | high, not executed | Textures.AsWrittenSlot (with Textures.AsWrittenWideOverlaps, Textures.AsWrittenTallOverruns, Textures.AsWrittenInBoundsOnlyIfSquare) | Textures.CheckerboardTexture (with Textures.CheckerTiles, Textures.CheckerAlternates) |
