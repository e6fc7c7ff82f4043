# Kuula

Kuula is a deterministic fantasy console: a cart draws and sounds through small
engines that must agree with a simpler definition, or keep an invariant over
every run. This project models those engines in Dafny and proves what they
promise. `dafny verify dfyconfig.toml` verifies all of it.

- **Rasteriser.** `Raster` (clip, colour, one pixel, the abstract canvas),
  `TlinePath`, `Tline`, `TlineMeaning`, `TlineWidths` (the textured line),
  `Line`, `Circle`, `CircleDraw`, `Blit` (the scaled blit), `Copy` (copies
  between and within buffers), `ColourTable`. `TlineCall` and `BlitCall` tell
  what the two calls draw on their own arguments, `Pens` what camera, pattern and
  colour table do to any shape.
- **Buffers and pen.** `Resources` (handles, free list, ledger), `Draw` (target,
  clip and sheet beside the slab).
- **Network.** `NetTypes`, `NetCart` (the cart's half), `NetLink` (the host's
  half), `NetPush` (which commands reach which transport), `NetRun` (the two
  together, for ever).
- **Worker codec.** `Utf8`, `Scalars` (the characters behind the bytes), `Wire`, `Message`, `Snapshot`, `Codec`,
  `CodecMessages`, `Frames`, `Stream` (the grammar and its round trips), `WireBytes`
  (what stands where), `Writing` and `Reading` (the objects that write and read it).
- **Real time.** `Ring` (the jitter ring in its feedback loop), `Pacing`
  (the schedule), `Resample`.
- **Input.** `Chord`, `Console` (which guest gets the buttons).
- **Algorithms.** `Diff` (the line diff), `DiffText` (its texts and its print), `Stalls` (the stall check); shared by all,
  `Numbers` and `Wrappers`.

Each object whose methods change it is a class proved against functions on its
abstract value; the laws are lemmas about those functions, over every input or
every run.

## Where the code and its promises part

Each of these is stated by a lemma named here.

- The frame cap is documented as enough for a load at the snapshot limits with
  every save slot full. It leaves out part of what a load carries: with an invite of
  1024 bytes such a load is 14 bytes over, and is refused
  (`Stream.FullLoadIsRefused`; `Stream.BodyAtMost` bounds every message).
- `read_frame` promises no message only on a clean end of the stream. It says the
  same of one to three bytes left over (`Stream.EndMeans`), so of a stream cut
  inside a length and of no other cut (`Stream.CutFrame`, `Stream.CutStream`).
- The line diff prints nothing for two texts that differ only in line endings, or
  in the last one (`Diff.LineEndingsAreNotShown`, `Diff.EmptyDiff`).
- A fault on line 0 arrives as a fault on no line, and an empty invite as none, the
  two fields a round trip changes within their bounds (`Frames.LineZeroIsNoLine`,
  `Frames.EmptyInviteIsNone`; `Frames.DecodesToItself` is the exact law).
- A local network failure takes the last event off the host's batch even when the
  failure itself was dropped for a full inbox (`NetCart.FailKeepsBatch` gives the
  exact condition, `NetRun.FailLosesBatch` a run that comes to it), though the
  comment on it says that local failures are not part of the batch.
- A released handle is documented never to be mistaken for its successor; after
  2^32 frees of one slot it is (`Resources.HandleLives`, `Resources.MistakenAtWrap`).
- `is_identity` is documented to say whether two rates are the same; it also holds
  of some that are not (`Resample.IdentityMeans`, `Resample.IdentityOfUnequalRates`).
- A button held at a hand-over is masked when a step hands the screen over. A cart
  the host puts in between two frames is no such hand-over and sees it at once
  (`Console.DeployIsNotMasked`; `Console.WhatEachSees` holds through such loads).

One more thing is no broken promise, since no sentence says either way, but is not
to be guessed: `docs/api.md:663-664` gives `net_declined` as the answer to a second
`host` or `join`, and `crates/kuula-core/src/net.rs:123` calls it a command that made
no sense. While the first attempt still waits, that answer also ends the attempt
(`NetCart.DeclineEndsAttempt`, with the exact condition).

## Model

| member | source | states |
|---|---|---|
| Tline.Tline | crates/kuula-core/src/tline.rs:119-359 | For every pair of ends, clip in the target, region, thickness and texture, the surface (pixels and meter) ends as the per-step definition leaves it: every step, every pixel across it, tested against the clip; every index is in bounds |
| TlinePath.SpanExact | crates/kuula-core/src/tline.rs:176-217 | The two solves are exact: a step has a pixel in the clip if and only if it is between the first and the last |
| TlinePath.StepPath | crates/kuula-core/src/tline.rs:316-322 | The error term alone says when the minor axis moves: adding to it keeps quotient and remainder of the definition's division |
| TlinePath.PathAtMeans | crates/kuula-core/src/tline.rs:92-110 | `path_at` is the definition's quotient and remainder at any step, on its 64-bit and its 128-bit side and where it divides nothing |
| TlinePath.OffRange | crates/kuula-core/src/tline.rs:186-189 | The minor offset starts at 0, ends at the whole extent and stays between |
| TlinePath.TexelAt | crates/kuula-core/src/tline.rs:81-90 | The texel position of the first step is the position stepped that many times and wrapped, on both widths |
| TlinePath.StepTexel | crates/kuula-core/src/tline.rs:279-287 | One addition and one comparison carry the wrapped texel position to the next step, for steps of either sign |
| Tline.DrawFlat | crates/kuula-core/src/tline.rs:249-291 | A row or a column: the loop without an error term draws and meters the definition |
| Tline.DrawThick | crates/kuula-core/src/tline.rs:294-336 | A slanted line wider than a pixel: the loop that finds each step's run by comparison draws and meters the definition |
| Tline.DrawThin | crates/kuula-core/src/tline.rs:338-358 | A slanted line one pixel wide: every step of the span is one write of the definition |
| TlineMeaning.TlinePixel | crates/kuula-core/src/tline.rs:112-359 | What the picture is: a pixel changes exactly when it is in the clip and within the thickness of the one step its major coordinate names, and then by that step's texel through the colour table |
| TlineCall.RegionMeans | crates/kuula-core/src/tline.rs:130-137 | There is no region when no pixel of the sheet is in the texture rectangle, and otherwise it is exactly the pixels of the sheet that are |
| TlineCall.TlineAt | crates/kuula-core/src/tline.rs:112-359 | What a call draws, told on its own arguments: a pixel of the clip that the line reaches is its old value seen through one pixel of the sheet, in the column and row that the texture's position, wrapped in 16.16 on the part of its rectangle the sheet has, names at that step; every other pixel is as it was, and so is everything without such a part |
| TlineCall.DriftIsNearest | crates/kuula-core/src/tline.rs:92-110 | A step's move on the shorter axis is its exact share, rounded to the nearest pixel |
| TlineCall.EndsAreReached | crates/kuula-core/src/tline.rs:119-186 | Both ends of a line are on it |
| TlineMeaning.TlineTouched | crates/kuula-core/src/tline.rs:112-359 | No pixel is touched twice: the meter is the number of distinct pixels of the line in the clip, so at most the clip's area |
| TlineWidths.LoopFits | crates/kuula-core/src/tline.rs:229-248 | For every line the offset, the error term and the texel position fit the 64- and 32-bit words the loops keep them in, at every step |
| TlineWidths.SolveFits | crates/kuula-core/src/tline.rs:173-212 | For every line, clip and thickness: moving the near edge out by the thickness never saturates, and the numerators of both solves fit 128 bits |
| TlineWidths.SolveNeedsMore | crates/kuula-core/src/tline.rs:204-212 | The longest diagonal, clipped to the screen, has a numerator that 64 bits do not hold |
| Line.DrawLine | crates/kuula-core/src/raster.rs:173-214 | The line plots its steps in order, each rounded from the exact point, through clip, fill pattern and table; the steps it skips plot nothing |
| Line.PointOnPath | crates/kuula-core/src/raster.rs:198-222 | Rounding the signed product away from zero at a half, and `tline`'s rounding of the unsigned one, give the same point at every step |
| Line.LineIsThinTline | crates/kuula-core/src/raster.rs:173-222 | A line visits exactly the pixels a `tline` one pixel thick visits between the same ends |
| Line.LineMetersAsThinTline | crates/kuula-core/src/raster.rs:173-222 | The two charge the same |
| Circle.WalkStep | crates/kuula-core/src/raster.rs:242-256 | One step of the midpoint walk keeps its error term and, while `x >= y` and the radius is positive, x the rounded root of r^2 - y^2 |
| Circle.HalfWidths | crates/kuula-core/src/raster.rs:294-318 | Every row 0 to r is set, each to the widest column of the disc on it |
| Circle.RowsNarrow | crates/kuula-core/src/raster.rs:294-318 | A row further from the centre is never wider |
| Circle.RowEnds | crates/kuula-core/src/raster.rs:294-318 | The ends of every row of the filled circle are on the outline |
| CircleDraw.Circ | crates/kuula-core/src/raster.rs:224-258 | The outline paints exactly the ring inside the clip, and is metered by every plot of the octant mirrored eight ways; a point circle is metered once if it is in the clip, a circle out of sight not at all |
| CircleDraw.Circfill | crates/kuula-core/src/raster.rs:260-277 | The filled circle paints exactly the disc inside the clip, and touches each of its pixels there once |
| CircleDraw.RingInDisc | crates/kuula-core/src/raster.rs:224-277 | Every pixel of the outline is in the filled circle of the same centre and radius |
| CircleDraw.VisibleMeans | crates/kuula-core/src/raster.rs:283-292 | A circle that is not visible has no pixel in the clip; a visible one has a centre the arithmetic can bear |
| Blit.Walk.constructor | crates/kuula-core/src/blit.rs:167-193 | A walk starts at the quotient and remainder of its first column, from either end |
| Blit.Walk.Next | crates/kuula-core/src/blit.rs:195-208 | The k-th step of the walk is the floor of the product's quotient, forwards and mirrored, without a division |
| Blit.WalkStep | crates/kuula-core/src/blit.rs:195-208 | The carried remainder is that of the next product, for every ratio and both directions |
| Blit.Sspr | crates/kuula-core/src/blit.rs:44-152 | The scaled blit, by walks and by its run slice, leaves the surface as a division a pixel does |
| Blit.SsprPixel | crates/kuula-core/src/blit.rs:44-152 | A destination pixel changes exactly when it is in the clip and the destination and its source pixel is on the sheet, and then by that pixel through the table |
| Blit.SsprTouched | crates/kuula-core/src/blit.rs:44-152 | The meter is the number of pixels that change hands |
| BlitCall.OffsetInside | crates/kuula-core/src/blit.rs:167-193 | Every step of a walk, mirrored or not, looks at a pixel inside the source it walks |
| BlitCall.OffsetMirrors | crates/kuula-core/src/blit.rs:167-193 | A mirrored step looks where the step as far from the other end looks |
| BlitCall.SsprAt | crates/kuula-core/src/blit.rs:44-208 | What a call draws, told on its own arguments: a pixel of the destination in the clip becomes the pixel of the sheet in its proportional column and row, counted from the other end when flipped, through the table; every other pixel is as it was |
| BlitCall.FlipMirrors | crates/kuula-core/src/blit.rs:44-208 | A flipped call shows on each pixel what the plain one shows on its mirror image in the destination |
| BlitCall.UnscaledIsPlain | crates/kuula-core/src/blit.rs:44-152 | With nothing to scale and no flip, the rectangle of the sheet as it is |
| Raster.IntersectMeans | crates/kuula-core/src/buf.rs:119-129 | The intersection of two rectangles contains exactly the pixels both contain, with saturating far edges |
| Raster.IntersectWithin | crates/kuula-core/src/buf.rs:119-129 | Cutting to a target leaves a rectangle inside it |
| Raster.ContainsMeans | crates/kuula-core/src/buf.rs:107-117 | A rectangle holds the pixels from its corner on, its width across and its height down |
| Raster.Surface.PlotPixel | crates/kuula-core/src/raster.rs:59-73 | One shape pixel: clip, meter, fill pattern, table, in that order |
| ColourTable.ColourTable.constructor | crates/kuula-core/src/pen.rs:79-89 | A new table is built, and plain |
| ColourTable.ColourTable.Reset | crates/kuula-core/src/pen.rs:92-98 | A reset table is built and plain |
| ColourTable.ColourTable.PalMap | crates/kuula-core/src/pen.rs:101-104 | A remap changes that one entry of the remap, and rebuilding its row alone keeps the whole table built |
| ColourTable.ColourTable.ClearRemap | crates/kuula-core/src/pen.rs:106-111 | The remap is the identity again, transparency is kept, the table is built |
| ColourTable.ColourTable.Palt | crates/kuula-core/src/pen.rs:114-122 | Transparency changes in one entry, and rebuilding only the rows remapped to it keeps the whole table built |
| ColourTable.ColourTable.ClearTransparency | crates/kuula-core/src/pen.rs:124-127 | Nothing is transparent, the remap is kept, the table is built |
| ColourTable.ColourTable.RebuildRow | crates/kuula-core/src/pen.rs:136-146 | One row is built; every other row that was built still is |
| ColourTable.ColourTable.Lookup | crates/kuula-core/src/pen.rs:149-151 | One read of the cached table is the remap followed by transparency |
| Pens.CameraMoves | crates/kuula-core/src/pen.rs:183-190 | The camera moves what is drawn against it: at rest it changes nothing short of saturation, and what moves with it stays |
| Pens.SsprMovesWithCamera | crates/kuula-core/src/blit.rs:44-152 | A blit moved with the camera is the same picture |
| Pens.TlineMovesWithCamera | crates/kuula-core/src/tline.rs:119-359 | A textured line moved with the camera is the same picture |
| Pens.PatternRepeats | crates/kuula-core/src/pen.rs:42-60 | The fill pattern repeats every four pixels across and down |
| Pens.CellIs | crates/kuula-core/src/pen.rs:42-60 | The sixteen cells are four rows of four, and each is named by one bit |
| Pens.BitNamesCell | crates/kuula-core/src/pen.rs:42-60 | Setting a clear bit of the pattern changes its one cell of the sixteen, to the secondary colour or to nothing, and no other |
| Pens.InkMeans | crates/kuula-core/src/raster.rs:59-73 | A plain table draws the primary colour where the pattern's bit is clear, and the secondary or nothing where it is set |
| Pens.PlainDraws | crates/kuula-core/src/pen.rs:79-98 | A plain table draws every colour as its low seven bits |
| Pens.RemapNames | crates/kuula-core/src/pen.rs:101-104 | Remapping a colour changes what that colour draws and no other |
| Pens.TransparentNames | crates/kuula-core/src/pen.rs:114-122 | Transparency is of the colour a source is remapped to, and spares every other |
| Copy.RegionMeans | crates/kuula-core/src/buf.rs:399-436 | The resolved region is exactly the destination pixels that have a source in bounds and lie in the clip, each beside its own source, for every pair of 32-bit corners |
| Copy.Buf.CopyFrom | crates/kuula-core/src/buf.rs:308-339 | Every destination pixel with a source in bounds and in the clip gets its source; all else is unchanged; two kinds of element are refused with nothing changed |
| Copy.Buf.CopyWithin | crates/kuula-core/src/buf.rs:342-363 | Within one buffer, however the rectangles overlap, the result is that of a copy through a temporary |
| Copy.Buf.CopyRowsWithin | crates/kuula-core/src/buf.rs:446-459 | The row order never overwrites a row still to be read |
| Copy.CopyIsOne | crates/kuula-core/src/buf.rs:308-363 | What a copy must leave is one picture only |
| Diff.FillTable | crates/kuula-apidoc/src/lib.rs:228-237 | The table holds the longest common subsequence of every pair of tails |
| Diff.LcsIsLongest | crates/kuula-apidoc/src/lib.rs:228-237 | No common subsequence is longer than its entry |
| Diff.LcsBound | crates/kuula-apidoc/src/lib.rs:228-237 | No entry exceeds the lines left of either text, so its 32 bits hold it for any text of fewer than 2^32 lines |
| Diff.DiffLines | crates/kuula-apidoc/src/lib.rs:238-258 | The lines printed are a minimal edit script: it turns the old text into the new, what it keeps is a longest common subsequence, and no script changes fewer lines |
| Diff.DiffTexts | crates/kuula-apidoc/src/lib.rs:224-259 | The same of two whole texts, split into lines |
| DiffText.LinesOfText | crates/kuula-apidoc/src/lib.rs:224-227 | A text made of any lines, each ended by a line feed with or without a carriage return, has those lines |
| DiffText.LinesOfOpenText | crates/kuula-apidoc/src/lib.rs:224-227 | The same with a last line that nothing ends |
| DiffText.LinesJoin | crates/kuula-apidoc/src/lib.rs:224-227 | A text that has ended its lines, followed by another, has the lines of both |
| DiffText.DiffTextsMeans | crates/kuula-apidoc/src/lib.rs:224-259 | Take the lines printed with a minus out of the old text and those with a plus out of the new: the same lines are left of both, in order, and no common subsequence is longer |
| Diff.KeepingMostIsMinimal | crates/kuula-apidoc/src/lib.rs:223-259 | A script that keeps as much as the table says can be kept is minimal |
| Diff.EmptyDiff | crates/kuula-apidoc/src/lib.rs:224-259 | Nothing is printed exactly when the two have the same lines |
| Diff.LineEndingsAreNotShown | crates/kuula-apidoc/src/lib.rs:224-226 | Nothing is printed of two texts that differ only in their line endings, or in the last of them |
| Utf8.ClipMeans | crates/kuula-cli/src/ipc.rs:52-61 | Clipping leaves valid UTF-8 within the bound, at most three bytes short of it, and clipping again changes nothing |
| Utf8.CutIsValid | crates/kuula-cli/src/ipc.rs:52-61 | UTF-8 cut at a character boundary is UTF-8 |
| Utf8.ClipLoop | crates/kuula-cli/src/ipc.rs:52-61 | The loop that steps back to a boundary is that clip, and always finds one |
| Scalars.EncodingIsValid | crates/kuula-cli/src/ipc.rs:359-362 | Any list of Unicode scalar values, encoded as RFC 3629 section 3 does, is a string the wire takes, and its characters are that list |
| Scalars.ValidIsEncoding | crates/kuula-cli/src/ipc.rs:359-362 | Every string the wire takes is the encoding of its characters |
| Scalars.BoundaryIsWhole | crates/kuula-cli/src/ipc.rs:52-61 | A place in a string is a boundary exactly when the bytes before it are whole characters |
| WireBytes.NumberBytes | crates/kuula-cli/src/ipc.rs:148-156 | Each byte of a number is its digit of base 256, the lowest first |
| WireBytes.StopBytes | crates/kuula-cli/src/ipc.rs:237-318 | A whole frame: the length, then the tag |
| WireBytes.ReadyBytes | crates/kuula-cli/src/ipc.rs:237-318 | The bytes of a ready message |
| WireBytes.StepBytes | crates/kuula-cli/src/ipc.rs:237-318 | The bytes of a step with two events |
| WireBytes.EventBytes | crates/kuula-cli/src/ipc.rs:171-203 | The bytes of one event of each kind |
| WireBytes.CommandBytes | crates/kuula-cli/src/ipc.rs:205-223 | The bytes of one command of each kind |
| WireBytes.LoadBytes | crates/kuula-cli/src/ipc.rs:237-318 | The bytes of a load with a file, a save, permission and an invite |
| WireBytes.StateBytes | crates/kuula-cli/src/ipc.rs:237-318 | The bytes of both states, on any line below 256 |
| WireBytes.AudioBytes | crates/kuula-cli/src/ipc.rs:237-318 | Samples are signed words, lowest byte first |
| WireBytes.FrameBytes | crates/kuula-cli/src/ipc.rs:237-318 | The bytes of a frame, part by part: picture, state, log, profile, sound, saves, commands, room |
| WireBytes.ErrorBytes | crates/kuula-cli/src/ipc.rs:237-318 | The bytes of an error |
| Frames.DecodeOfEncode | crates/kuula-cli/src/ipc.rs:237-601 | Decoding the body of any well-formed message gives it back with its fields clipped to the wire bounds, nested saves, events, commands and files included |
| Frames.DecodesToItself | crates/kuula-cli/src/ipc.rs:237-601 | A well-formed message decodes to itself exactly when every field is within its bound, no fault is on line 0 and no invite is empty |
| Frames.EmptyInviteIsNone | crates/kuula-cli/src/ipc.rs:237-601 | An empty invite arrives as none |
| Frames.LineZeroIsNoLine | crates/kuula-cli/src/ipc.rs:237-601 | A fault on line 0 arrives as a fault on no line |
| Frames.EncodeOfDecode | crates/kuula-cli/src/ipc.rs:237-601 | A body that decodes to anything but a load is the encoding of what it decodes to, which is well formed and clipped already |
| Frames.LoadEncodeOfDecode | crates/kuula-cli/src/ipc.rs:470-601 | A load that decodes re-encodes to the same bytes exactly when its files came in order |
| Stream.BodyAtMost | crates/kuula-cli/src/ipc.rs:28-36 | No body is empty; every message but a load fits the frame cap; a load exceeds it by 14 bytes at most |
| Stream.FrameReadsBack | crates/kuula-cli/src/ipc.rs:237-318 | A well-formed message written as a frame reads back, and leaves the rest of the stream, exactly when its body fits the cap |
| Stream.StreamReadsBack | crates/kuula-cli/src/ipc.rs:605-626 | A concatenation of frames reads back as the same list and a clean end |
| Stream.EndMeans | crates/kuula-cli/src/ipc.rs:604-611 | An end is reported exactly when fewer than four bytes are left, one to three included |
| Stream.CutFrame | crates/kuula-cli/src/ipc.rs:605-621 | A frame cut inside its length reads as a clean end, cut anywhere after it as broken off |
| Stream.CutStream | crates/kuula-cli/src/ipc.rs:605-626 | A stream cut anywhere reads back the frames that are whole, and seems to have ended there exactly when fewer than four bytes follow the last of them |
| Stream.FullLoadIsRefused | crates/kuula-cli/src/ipc.rs:28-36 | A load at the documented limits with a full invite is 14 bytes over the cap, and is refused |
| Writing.Encode | crates/kuula-cli/src/ipc.rs:237-318 | The writer's appended bytes are the length and the body of the message |
| Writing.Writer.PutOneEvent | crates/kuula-cli/src/ipc.rs:171-203 | One event is appended field by field |
| Writing.Writer.Commands | crates/kuula-cli/src/ipc.rs:205-223 | The commands, cut to their bound, are appended with their count |
| Reading.Decode | crates/kuula-cli/src/ipc.rs:470-601 | The reader accepts exactly the bodies the grammar accepts, with the same message, and never reads past the end |
| Reading.Reader.TakeBytes | crates/kuula-cli/src/ipc.rs:328-339 | Bytes are taken if they are there, and nothing is taken if they are not |
| Reading.Reader.Saves | crates/kuula-cli/src/ipc.rs:364-381 | Saves are read up to the slots there are, each slot once |
| Reading.Reader.Events | crates/kuula-cli/src/ipc.rs:390-430 | Events are read up to the batch bound, or the body is refused |
| Reading.ReadOne | crates/kuula-cli/src/ipc.rs:605-621 | One frame of a stream: a message and the rest, the end, or a refusal |
| Snapshot.OrderIsKept | crates/kuula-core/src/snapshot.rs:121-175 | Building a snapshot from entries keeps them as given exactly when they are in order |
| Snapshot.SnapshotRebuilds | crates/kuula-core/src/snapshot.rs:121-175 | The entries of a snapshot build the same snapshot again |
| Snapshot.SplitMeans | crates/kuula-core/src/snapshot.rs:76-113 | The pieces of a name hold no separator, and joined by it they are the name |
| Snapshot.LessMeans | crates/kuula-core/src/snapshot.rs:121-175 | Names are ordered as their bytes are: a name before what it begins, otherwise by the first byte that differs |
| NetTypes.CodeRoundTrip | crates/kuula-core/src/net.rs:156-176 | Every failure code parses back from its name |
| NetCart.NetState.BeginFrame | crates/kuula-core/src/net.rs:350-355 | A frame starts with an empty outbox and the batch admitted in order |
| NetCart.NetState.AdmitAll | crates/kuula-core/src/net.rs:358-367 | Every event is applied; a full inbox drops it, unless it is a change of permission |
| NetCart.NetState.Accept | crates/kuula-core/src/net.rs:370-421 | What each event does to status, ticket, peer, permission and inbox |
| NetCart.NetState.Try | crates/kuula-core/src/net.rs:431-461 | An attempt to host or join: refused without permission, while live, or past the command bound; otherwise one command |
| NetCart.NetState.TrySend | crates/kuula-core/src/net.rs:464-476 | A message goes out only in a session and within both bounds |
| NetCart.NetState.Quit | crates/kuula-core/src/net.rs:479-489 | Leaving ends a live session and asks the host to close it |
| NetCart.StatusMeans | crates/kuula-core/src/net.rs:370-421 | The status after any event, exactly: a session begins with a peer alone; it falls back to hosting when a host's peer is lost, ends for anyone else, and is left alone by a peer that closed in good order |
| NetCart.PartiesMean | crates/kuula-core/src/net.rs:370-421 | What any event leaves of ticket, peer, permission, inbox and count |
| NetCart.AttemptAsks | crates/kuula-core/src/net.rs:431-461 | A call to host or join asks for exactly itself when it may; when it may not it asks for nothing and the cart is told why |
| NetCart.SendReaches | crates/kuula-core/src/net.rs:464-476 | In a session and within both bounds a message is queued whole behind what was and counted as sent; past a bound it is counted as dropped |
| NetCart.LeaveAsks | crates/kuula-core/src/net.rs:479-489 | Leaving ends whatever is on, and asks for it once |
| NetCart.ReceiveInOrder | crates/kuula-core/src/net.rs:492-494 | Events are received in the order they were queued, each once |
| NetCart.NetState.FailLocally | crates/kuula-core/src/net.rs:424-428 | A local failure is queued like an event and taken off the host's batch |
| NetCart.RoomIsRoom | crates/kuula-core/src/net.rs:329-367 | A batch of at most `room` events with no change of permission is admitted whole and in order, and nothing is dropped |
| NetCart.BatchTakenInPart | crates/kuula-core/src/net.rs:358-367 | Any batch with no change of permission: the inbox takes the first of it, as many as fit, and counts the rest as dropped |
| NetCart.RoomIsExact | crates/kuula-core/src/net.rs:329-334 | A batch that one frame may hold is admitted whole if and only if it is within the room |
| NetCart.FailKeepsBatch | crates/kuula-core/src/net.rs:424-428 | A local failure leaves the host's batch as it was if and only if the inbox is below its cap or there was no batch |
| NetRun.FailLosesBatch | crates/kuula-core/src/net.rs:424-428 | A run of a cart that reads nothing, in which a declined call takes the host's own event off the batch |
| NetCart.DeclineEndsAttempt | crates/kuula-core/src/net.rs:403-461 | A refused call asks for nothing, and leaves the status as it was if and only if no attempt waits; one that does is ended |
| NetLink.Link.SetPermitted | crates/kuula-core/src/net.rs:571-583 | A withdrawal closes the transport, drops what waits and queues the news; a grant queues the news |
| NetLink.Link.Push | crates/kuula-core/src/net.rs:613-661 | Each command of a frame: handed over, answered with a failure, or ignored |
| NetLink.Link.Poll | crates/kuula-core/src/net.rs:665-682 | What waits comes first, changes of permission without counting, then what the transport offers in the room left |
| NetLink.OneTransportAPush | crates/kuula-core/src/net.rs:613-661 | One push builds at most one transport |
| NetLink.NothingWithoutPermission | crates/kuula-core/src/net.rs:613-661 | A link with neither permission nor transport does nothing with any commands at all |
| NetPush.SessionTakesAll | crates/kuula-core/src/net.rs:613-661 | A permitted link with an open transport hands it every well-formed command of a list without a leave, in order, and nothing else |
| NetPush.LeaveCloses | crates/kuula-core/src/net.rs:613-661 | A leave is the last thing an open transport is handed, and the cart is told |
| NetPush.FirstOpens | crates/kuula-core/src/net.rs:613-661 | With permission, a factory and no transport, a first well-formed host or join opens one and is handed to it |
| NetPush.NoneOpens | crates/kuula-core/src/net.rs:613-661 | When one was already opened in the frame, or there is no factory, none is opened and the cart is told |
| NetPush.EveryList | crates/kuula-core/src/net.rs:613-661 | Any list of commands at a permitted link with a factory: which commands reach the transport there was, which one opens the next, and which reach that |
| NetPush.EveryListWithoutFactory | crates/kuula-core/src/net.rs:613-661 | The same with no factory: what comes before the leave reaches the transport, and nothing after it reaches any |
| NetPush.OnlyTheLeave | crates/kuula-core/src/net.rs:613-661 | Without permission an open transport is handed a leave if there is one, and nothing else |
| NetPush.PushTells | crates/kuula-core/src/net.rs:613-661 | What each command has the cart told, behind what waits, unless too much does |
| NetPush.PermitMeans | crates/kuula-core/src/net.rs:571-583 | What a grant, a withdrawal and a repetition leave of the link |
| NetPush.PollKeepsOrder | crates/kuula-core/src/net.rs:665-682 | A poll gives what waits, oldest first, then the first of the offer in the room left; the rest still waits, in order |
| NetPush.PollTakesAllThatFits | crates/kuula-core/src/net.rs:665-682 | A poll stops only at an event there is no room for |
| NetLink.WithdrawalPolledFirst | crates/kuula-core/src/net.rs:571-682 | A withdrawal closes the transport, and whatever is toggled and pushed after it the next poll begins with a withdrawal, even with no room |
| NetRun.StepFrame | crates/kuula-core/src/net.rs:329-682 | A frame on the two objects, poll, admit, calls, push, is one step of the pair |
| NetRun.EveryRun | crates/kuula-core/src/net.rs:329-682 | In every run, whatever the transport offers: no transport without permission; the queue within its cap; the inbox within its cap and one; a cart that has been polled the withdrawal has no session; each transport ever built was opened by a host or join with permission, was handed nothing without it but its leave, and closed before the next |
| NetRun.EveryFrame | crates/kuula-core/src/net.rs:329-682 | In every frame of every run, whatever the transport offers: the batch is admitted whole, at most one transport is built, and without permission the cart has been told, no call issues a command and nothing is handed to a transport |
| NetRun.HonestRun | crates/kuula-core/src/net.rs:329-682 | Over a transport that offers no change of permission: a cart without permission has no session, after each batch the cart knows exactly what the link knows, and it never sees two grants without a withdrawal between them |
| NetRun.DishonestTransport | crates/kuula-core/src/net.rs:665-682 | Why that needs such a transport: one that offers changes of permission can put a cart without permission in a session, and repeat a grant |
| Ring.Ring.Push | crates/kuula-host-common/src/audio.rs:106-115 | The newest values the ring has room for are kept; those pushed out are counted |
| Ring.Ring.Drain | crates/kuula-host-common/src/audio.rs:129-159 | Silence and nothing taken until the ring has primed; then the oldest values, and silence with the ring stopped and counted when it runs dry |
| Ring.Ring.Clear | crates/kuula-host-common/src/audio.rs:162-166 | The ring is empty and primes again |
| Ring.Ring.PlayingLevel | crates/kuula-host-common/src/audio.rs:187-190 | A level is given exactly while the ring plays, and is the longest callback it would not run dry in |
| Ring.CallbackHears | crates/kuula-host-common/src/audio.rs:129-159 | A callback hears the oldest values, then silence; what is short is counted exactly when the ring was playing |
| Ring.PushKeepsNewest | crates/kuula-host-common/src/audio.rs:106-115 | After a push the ring holds as many of the newest values as it has room for, in order, and counts exactly the others |
| Ring.TrimMeans | crates/kuula-host-common/src/audio.rs:209-217 | A frame is gained or lost exactly on an eighth turn that finds the playing ring below or above its levels |
| Ring.EveryValueIsCounted | crates/kuula-host-common/src/audio.rs:106-166 | Over any pushes, callbacks and clears the ring stays within its capacity, and every value that came was taken, cleared, counted as dropped, or is held |
| Ring.StepHeld | crates/kuula-host-common/src/audio.rs:106-217 | One turn of host and device keeps the level where the trim can hold it, or the ring filling |
| Ring.NeverDry | crates/kuula-host-common/src/audio.rs:194-217 | From a new ring, through any fresh starts, with a device whose drift is within the bound each turn, the trimmed loop never runs dry and never drops a value, for ever |
| Ring.MayStart | crates/kuula-host-common/src/audio.rs:194-217 | Such a run may start at a new ring, or at any level between the two while playing, on any turn |
| Ring.PlaysEverything | crates/kuula-host-common/src/audio.rs:106-217 | While it plays, what is heard and what is held are all that was made, in order, with no gap |
| Resample.Resampler.constructor | crates/kuula-android/src/resample.rs:35-43 | A resampler starts in silence with the step of its rates |
| Resample.Resampler.Fill | crates/kuula-android/src/resample.rs:58-74 | The nested loops fill the buffer, and move the state, as the run over whole frames does; an odd value at the end is left alone |
| Resample.StepMeans | crates/kuula-android/src/resample.rs:35-43 | The step is the ratio of the rates in 65536ths, rounded down, and its own bound where the ratio is past it |
| Resample.ClosedForm | crates/kuula-android/src/resample.rs:58-74 | Each channel of output k is the last whole value not past the point between source frames q - 2 and q - 1 that the phase left of k steps names, with silence before the source and its last frame after it, however short it is |
| Resample.OnTheLineOnce | crates/kuula-android/src/resample.rs:63-66 | That value is one value only |
| Resample.LastFrameIsHeld | crates/kuula-android/src/resample.rs:58-74 | Past the end of the source every output is its last frame |
| Resample.TakesNeeds | crates/kuula-android/src/resample.rs:51-74 | What `needs` says is what the run takes from any state, or all there is |
| Resample.BlocksDoNotMatter | crates/kuula-android/src/resample.rs:51-74 | However many blocks the output is asked for in, each given exactly what it needs, they come out as one run |
| Resample.Between | crates/kuula-android/src/resample.rs:63-66 | Each value is the point between its two source values at the phase, rounded down, so never outside them |
| Resample.IdentityMeans | crates/kuula-android/src/resample.rs:35-48 | The step is a copy's exactly when the rates differ by less than a 65536th of the output rate, upwards |
| Resample.IdentityOfUnequalRates | crates/kuula-android/src/resample.rs:45-48 | Two different rates can count as the same |
| Resample.SameRateCopies | crates/kuula-android/src/resample.rs:35-74 | Of rates that count as the same the output is the source two frames late |
| Resources.Resources.Alloc | crates/kuula-core/src/resources.rs:134-150 | A buffer is charged and put in a slot, or refused for its sides or for the budget |
| Resources.Resources.Insert | crates/kuula-core/src/resources.rs:171-188 | The last free slot is used before a new one is made |
| Resources.Resources.Free | crates/kuula-core/src/resources.rs:192-209 | The buffer's charge goes back, its generation moves on, its slot is free, its names are gone |
| Resources.Resources.PairMut | crates/kuula-core/src/resources.rs:239-253 | Two live handles are both borrowed unless they are equal |
| Resources.Resources.Find | crates/kuula-core/src/resources.rs:255-257 | A name stands for a live buffer or for nothing |
| Resources.AllocKeeps | crates/kuula-core/src/resources.rs:134-150 | An allocation succeeds exactly when the sides are in bounds and the bytes fit the cap; its handle was not live; every other handle reads as it did; a refusal changes nothing |
| Resources.InsertKeeps | crates/kuula-core/src/resources.rs:155-188 | A charged buffer gets a handle nobody holds and disturbs none |
| Resources.FreeKeeps | crates/kuula-core/src/resources.rs:192-209 | A free gives back exactly what was charged, kills that handle and no other, and never the screen |
| Resources.FreeKeepsNames | crates/kuula-core/src/resources.rs:192-209 | A free forgets the names of its buffer and keeps every other name, with what it stands for |
| Resources.SlotsAreReused | crates/kuula-core/src/resources.rs:171-209 | A slot is added only when none is free; a free frees one and takes none away |
| Resources.BudgetIsSpent | crates/kuula-core/src/resources.rs:34-150 | What each kind of element costs, how far eight mebibytes go, and what is refused past them |
| Resources.ApplyKeeps | crates/kuula-core/src/resources.rs:34-261 | Every operation keeps the slab: the ledger is the live charges and the outstanding reservations within the cap, the free list is the empty slots once each, the screen stays, names are live |
| Resources.UnreserveKeeps | crates/kuula-core/src/resources.rs:48-50 | Giving back a reservation never meets the saturation |
| Resources.HandleLives | crates/kuula-core/src/resources.rs:171-227 | Over every run a handle live at its start is live at its end exactly when its slot holds a buffer and was freed a multiple of 2^32 times |
| Resources.FreedStaysDead | crates/kuula-core/src/resources.rs:192-209 | A freed handle is dead through any run of fewer than 2^32 frees of its slot |
| Resources.MistakenAtWrap | crates/kuula-core/src/resources.rs:53-56 | After 2^32 frees of one slot a released handle is live again |
| Draw.DrawState.Target | crates/kuula-core/src/draw.rs:134-140 | A draw call writes to the pen's target, or to the screen if that is gone |
| Draw.DrawState.DrawTarget | crates/kuula-core/src/draw.rs:149-162 | A live byte buffer becomes the target with its whole area as clip; anything else is refused |
| Draw.DrawState.SetClip | crates/kuula-core/src/draw.rs:165-178 | The clip asked for, cut to the target |
| Draw.DrawState.SetSheet | crates/kuula-core/src/draw.rs:296-308 | A live byte buffer or none becomes the sheet; anything else is refused |
| Draw.DrawState.SheetAndTarget | crates/kuula-core/src/draw.rs:310-318 | What a blit borrows |
| Draw.DrawState.BufRelease | crates/kuula-core/src/draw.rs:454-463 | Releasing the target or the sheet lets go of it |
| Draw.DrawState.Reap | crates/kuula-core/src/draw.rs:466-472 | Everything let go of is released |
| Draw.RetargetKeeps | crates/kuula-core/src/draw.rs:149-162 | A target taken is the buffer named, all of it, and the pen stays safe; a target refused changes nothing |
| Draw.ClipKeeps | crates/kuula-core/src/draw.rs:165-178 | A pixel is in the new clip if and only if it is in the rectangle asked for and in the target; nothing else of the pen changes |
| Draw.SheetKeeps | crates/kuula-core/src/draw.rs:296-308 | A live byte buffer or none becomes the sheet, and anything else leaves the one there was |
| Draw.ReleaseKeeps | crates/kuula-core/src/draw.rs:454-463 | A release kills that handle and no other and has the pen let go of it: back to the whole screen, or to no sheet; refused, it changes nothing |
| Draw.ReapKeeps | crates/kuula-core/src/draw.rs:466-472 | Reaping kills exactly the handles named, twice or not, and never the screen; the pen lets go of those and keeps the rest |
| Draw.TargetStays | crates/kuula-core/src/draw.rs:134-140 | The screen never has to stand in: the target is live, holds bytes, and contains the clip |
| Draw.BorrowMeans | crates/kuula-core/src/draw.rs:310-318 | A blit is refused for want of a sheet or for a sheet that is the target, and for nothing else |
| Draw.PenStaysSafe | crates/kuula-core/src/draw.rs:134-472 | After any calls at all the target is a live byte buffer containing the clip, and the sheet is none or a live byte buffer |
| Pacing.Scheduler.StepsDue | crates/kuula-host-common/src/pacing.rs:92-99 | One frame, and one more for each deadline passed, at most four, each taken off the schedule |
| Pacing.Scheduler.Wait | crates/kuula-host-common/src/pacing.rs:103-113 | The deadline waited for, and the next: the grid's, or from now when too far behind |
| Pacing.OwedMeans | crates/kuula-host-common/src/pacing.rs:86-99 | The frames owed and the deadline they leave |
| Pacing.OwedCases | crates/kuula-host-common/src/pacing.rs:86-99 | The same case by case |
| Pacing.ResyncMeans | crates/kuula-host-common/src/pacing.rs:103-113 | A turn that ends past the bound leaves the next deadline exactly a period from then; any other leaves it on the grid |
| Pacing.NewGridAfterResync | crates/kuula-host-common/src/pacing.rs:68-113 | After a resync the loop keeps to the grid begun then, while its turns are brisk |
| Pacing.NeverLeavesTheGrid | crates/kuula-host-common/src/pacing.rs:68-113 | While each turn is over within four periods of when it was due, the schedule never restarts, the next deadline is that of the frame after those stepped, and the loop is less than three periods behind it |
| Pacing.FramesAreTime | crates/kuula-host-common/src/pacing.rs:68-113 | From stepping to waiting, the frames stepped are within four of the periods gone by, and never more than the one being shown ahead |
| Chord.NeverBoth | crates/kuula-core/src/input.rs:59-73 | Start and Select are never given together, neither while they are taken, and nothing else is added or lost but Menu |
| Chord.Chord.Apply | crates/kuula-core/src/input.rs:59-73 | The rule on one frame |
| Chord.GivenOnlyAfterRelease | crates/kuula-core/src/input.rs:46-50 | Once the two were down together neither is given until both have been up |
| Chord.TakenExactly | crates/kuula-core/src/input.rs:46-73 | Over any run the two are taken exactly while they have been down together and not both up since |
| Chord.GivenExactly | crates/kuula-core/src/input.rs:46-73 | What is given in any frame of any run: Menu for the two together, neither until both have been up, and everything held otherwise, so both again after |
| Chord.MenuChord.Apply | crates/kuula-host-common/src/chord.rs:31-41 | The circular line is a six-deep queue |
| Chord.SixFramesLate | crates/kuula-host-common/src/chord.rs:12-41 | Start and Select come out exactly as the rule gave them six frames before, unless the two went down together since; every other button at once; never both |
| Chord.ConsolePassesIt | crates/kuula-host-common/src/chord.rs:14-41 | The console's own rule passes every output unchanged |
| Console.Console.StepWith | crates/kuula-core/src/console.rs:459-558 | One frame: what each guest is given, and where cart, shell and masks end |
| Console.Console.StepCart | crates/kuula-core/src/console.rs:279-300 | A running cart is given the buttons its manifest declares |
| Console.Console.ApplyAll | crates/kuula-core/src/console.rs:538-543 | The shell's requests, in order |
| Console.Console.HostLoadCart | crates/kuula-core/src/console.rs:413-425 | A cart put in by the host |
| Console.NeverBothReact | crates/kuula-core/src/console.rs:459-536 | The cart and the shell are never both given a button in one frame |
| Console.CartSeesItsOwn | crates/kuula-core/src/console.rs:279-304 | A cart sees no button it does not declare, never Menu, never Start and Select together, none that is not held |
| Console.WhatEachSees | crates/kuula-core/src/console.rs:459-550 | After any run, the guest that has the buttons sees exactly those given that it may see, less every one held in each frame since they were handed to it in a step; the other sees none |
| Console.MenuIsPressedAnew | crates/kuula-core/src/console.rs:474-482 | After any run the menu is pressed exactly in a frame that holds it when the last did not: the button, or over a cart that runs a Start or Select it does not declare and that has been up since the hand-over |
| Console.StartChooses | crates/kuula-core/src/console.rs:518-523 | Where the shell is given Start it is given A, and nothing else is added |
| Console.WhoSteps | crates/kuula-core/src/console.rs:459-536 | Who is stepped: a cart that is there, sound and not paused; a shell that is sound; and what a frame without requests leaves of both |
| Console.RequestMeans | crates/kuula-core/src/console.rs:561-602 | What each request does to who has the buttons |
| Console.RequestsInOrder | crates/kuula-core/src/console.rs:538-543 | Requests act one after the other, in the order asked |
| Console.DeployIsNotMasked | crates/kuula-core/src/console.rs:407-425 | A cart the host puts in between frames sees a button held over |
| Stalls.Validate | crates/kuula-host-headless/src/net_sim.rs:104-152 | A configuration is accepted exactly when its numbers are in range and no peer has more than `MAX_DELAY` stalled frames in a row, whatever the overlap, touch and order of the ranges |
| Stalls.Merge | crates/kuula-host-headless/src/net_sim.rs:136-142 | Merging keeps what is held and leaves a frame between any two ranges |
| Stalls.LongIffHeldLong | crates/kuula-host-headless/src/net_sim.rs:143-147 | A merged range is too long exactly when that many frames are held in a row |

## Left out

- `spr`, `map`, `print`, `cls`, `rect`, `rectfill`, `pset`: thinner uses of what is modelled, and for `map` a camera sum that can overflow.
- Float conversions (`to_int`, `to_fixed`) and `buf_set`, `buf_fill`: the model takes their integer results.
- Map information, asset decoding (PNG, JSON) and the cart's files: a decode is a reservation followed by an insertion or by giving it back.
- Elements of buffers in `Resources`: the slab keeps each buffer's kind and sides; pixels are in `Raster` and `Copy`.
- Pen: a draw call takes the pen as a value; the class in `ColourTable` shows that the cached table is the value it stands for.
- Blit.Sspr: the code builds the column walk even when the run slice is used instead; the model builds it where it is used.
- Copy.Buf.CopyRows: one row's slice copy, and in place one row's memmove, are simultaneous assignments, which is what the library calls promise.
- Stalls.Sort: the library sort is an insertion sort here; only order and contents are used.
- Ring: locks, the diagnostic log and its clock, and `Pace`; a turn is taken as trim, push, then the callbacks due in it.
- Pacing.Scheduler.Wait: the clock is a parameter, and sleeping is the time the next turn begins.
- Chord: a word of buttons is the set of its bits.
- Console: the guests are what they answer in each frame; sound, log, presentation and what the shell is shown are not modelled.
- NetRun: the console's own queue of events for a paused cart is not modelled, a frame being poll, admit, calls, push; a cart's first permission is the link's; a transport offers any events at all, but no more than it is asked for, as its trait requires.
- NetLink: texts of the failures a host queues are kept, but those of protocol errors and of log lines are not.
- Reading.Decode: the text of a refusal.
- Words of `usize` are 64 bits; counters of statistics do not wrap.
- The Lua guest, the mixer, transcripts, sandbox, broker, and all foreign calls and I/O.
