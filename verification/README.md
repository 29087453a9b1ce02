# Verified core of the branch monitor

The branch monitor is a backend that watches and updates the machines of bank branches, an agent
that runs on each machine, and a browser front end with a remote screen. This project models the
parts of it whose correctness rests on invariants over whole runs, and proves those invariants:

- **The remote screen** (`Canvas`, `Display`, `DisplayViewport`, `DisplaySync`, `DisplayExact`,
  `DisplayOrder`, `DisplayPixels`, `DisplayObject`). The client draws into a hidden backbuffer, keeps a rectangle of damage, and copies
  only the damaged part of the viewport to the visible canvas. Pictures become ready late, so drawing
  calls wait in a queue. `DisplayModel.Step` is the state machine of all public calls and readiness
  events; the class `Display` changes its fields step by step and is proved to be that machine.
- **The connection of the remote screen** (`Integers`, `Websock`, `Base64`, `RA2`). A receive queue that
  is one growing, compacting byte array, a send queue that is cut into messages, 32-bit signed shifts,
  Base64, and the nonce counter of the RA2 channel.
- **Patching a branch** (`FileTrees`, `PatchService`, `PatchRun`, `PatchRecord`). Backup, overlay update,
  verification and rollback of a file tree in which every file operation, log and message can fail, and
  the record the server makes of the run from its status messages.
- **Moving files** (`Download`, `ChunkUpload`, `ConnectionPool`, `Paths`). Resumable download over any
  number of crashes and retries, upload in chunks that arrive in any order, the pool of SFTP
  connections as interleaved atomic steps, and the path normaliser.
- **Bookkeeping and topics** (`BranchHub`, `Topics`). Connection counters that must agree with a
  concurrent map under every interleaving, and the matching of MQTT topic filters compared with section
  4.7.1 of MQTT Version 3.1.1.

What happens outside is arbitrary, but not for the code to choose. In the patch model a fixed plan, any
function from numbers to booleans, says which operations fail, and another when the token is signalled;
contracts say both what an operation does and that nothing but such a failure keeps it from doing it. What
a failed operation leaves behind, whether a failed phase returns false or throws, which messages the broker
refuses and what the cleanup deletes are chosen by `*`. The download computes a function of a plan of
outside events, and its theorems are about all plans. Integers are mathematical; where JavaScript's 32-bit operators matter
they are written out in `Integers`. `dafny verify dfyconfig.toml` verifies everything.

## What turned out to be false

Each of these has a concrete input or run that shows it, and the exact condition under which the code
does what it is meant to do.

- A flip does not always make the visible canvas equal to the backbuffer. `drawImage` composites, so a
  backbuffer pixel that is not opaque lets the old visible pixel through, and then the damage is cleared:
  `DisplayExact.UnpaintedPixelStaysStale` is a run of a new display. A flip is exact if and only if no
  damaged pixel is of that kind: `DisplaySync.FlipIsExactIff`. Without clipping, which is how the front
  end opens its display (`wwwroot/Js/vnc-interop.js`, lines 72 and 73), it always is as long as nothing
  half-transparent is drawn: `DisplayExact.UnclippedRunIsExact`; with clipping it is once the framebuffer has been painted:
  `DisplayExact.PaintedRunIsExact`.
- The viewport can be outside the framebuffer after a move before the first resize, because a later
  clamp without a move corrects only the row: `DisplayViewport.EarlyMoveEscapes`, `ResizeContainsIff`,
  and `MoveContainsIff` for the moves that correct it.
- A blit that has to wait ignores its offset: `DisplayOrder.QueuedBlitLosesOffset`, `BlitAsAskedIff`.
- A picture whose decoded size is not the announced one holds up the queue for good:
  `DisplayPixels.WrongSizeStaysForever`. Every other awaited picture is drawn as soon as it is loaded:
  `LoadedIsDrawn`.
- `sQpushBytes` does not end on a queue that fills up while its socket is not open:
  `Websocks.FullQueueStalls`, `PushEndsIff`.
- A topic filter with `+` before `/#` matches no topic name, and `P/#` does not match `P` itself:
  `Topics.PlusBeforeHashMisses` is a topic that the standard matches and the helper misses, and
  `HashAgreesIff` says for every `P` and topic when the two agree.
- Normalising a path twice can change it: `Paths.NotIdempotent`, `IdempotentIff`.
- A download over a file that is not a prefix of the remote one reports success of a mixture:
  `Download.OldBytesSurvive`, `RunIsTruthfulIff`. Bytes that closing a stream loses are skipped by the
  retry or cut off under a reported success: `Download.TruncatedRun`, `LostTailIff`. An early end of the
  stream is reported as success: `Download.EarlyEndRun`; whether the file is right then is decided by its
  length, `RunIsWholeIff`, and without torn writes by the offset reached, `FinishedIsWholeIff`.
- The pool of connections has no size that holds in every interleaving: a sweep that is slower than the
  transfers around it keeps one connection for each of them, `ConnectionPools.SlowSweepGrowsThePool`.
  The step that breaks the bound is in `StepKeepsBoundedIff`, and `PoolBound` counts how often it happens.
- A connection whose group calls throw after it was counted leaves the branch's count too high:
  `BranchHub.FailedConnectStaysCounted`, `CountIsListedIff`.
- A rollback whose cancellation token is signalled deletes the application folder and restores nothing,
  and the run goes on to publish a completed rollback: `PatchService.SignalledRollbackLosesFile`. If nothing
  fails up to the end of its copy, a rollback restores the backup if and only if the token is not signalled
  by then or the backup is empty: `PatchService.Rollback`. `PatchRun.PatchRun.ApplyPatch` says the same of
  whole runs: a rollback is *hindered* if, by the end of its copy, the token was signalled or a file
  operation or log of this rollback had failed, and a run that ends with an unhindered rollback leaves the
  original folder.
- A redelivered message that is not adjacent to its original can reopen or overwrite a closed record:
  `PatchRecord.LateStartReopens`, `LateCopyOverwrites`, `LateCopyHarmlessIff`.

## Model

| member | source | states |
|---|---|---|
| `Canvases.OverReplaces` | BranchMonitorFrontEnd/BranchMonitorFrontEnd/wwwroot/libs/novnc/core/display.js:287-291 | compositing a pixel replaces the old one if and only if the new one is opaque or the old one is transparent black |
| `Canvases.OverAssociates` | BranchMonitorFrontEnd/BranchMonitorFrontEnd/wwwroot/libs/novnc/core/display.js:287-291 | compositing does not depend on how pictures are grouped |
| `DisplaySync.FlipPaintsDamage` | BranchMonitorFrontEnd/BranchMonitorFrontEnd/wwwroot/libs/novnc/core/display.js:253-297 | the clipping arithmetic of a flip paints exactly the damaged pixels of the viewport, each from the backbuffer pixel behind it, and no other |
| `DisplaySync.StepKeepsSync` | BranchMonitorFrontEnd/BranchMonitorFrontEnd/wwwroot/libs/novnc/core/display.js:74-80 | every call and event (here with the clip setter) keeps each opaque backbuffer pixel outside the damage equal to the visible pixel |
| `DisplaySync.DirtyRectangleSound` | BranchMonitorFrontEnd/BranchMonitorFrontEnd/wwwroot/libs/novnc/core/display.js:236-297 | dirty-rectangle soundness over every run of a new display: draws, copies, blits, flips, moves, both kinds of resize and readiness events |
| `DisplaySync.FlipIsExactIff` | BranchMonitorFrontEnd/BranchMonitorFrontEnd/wwwroot/libs/novnc/core/display.js:253-297 | a flip makes the whole visible canvas equal to the backbuffer if and only if no damaged pixel lets an old visible pixel shine through |
| `DisplayExact.UnclippedRunIsExact` | BranchMonitorFrontEnd/BranchMonitorFrontEnd/wwwroot/libs/novnc/core/display.js:189-297 | without clipping, after the first resize and over every run with any resizes, opaque blits and pictures of opaque or transparent pixels, the visible canvas equals the backbuffer outside the damage, and everywhere after a flip |
| `DisplayExact.PaintedRunIsExact` | BranchMonitorFrontEnd/BranchMonitorFrontEnd/wwwroot/libs/novnc/core/display.js:92-173 | with clipping, once the framebuffer is painted and while it does not grow, the same exactness holds over every run of opaque blits and any pictures |
| `DisplayExact.UnpaintedPixelStaysStale` | BranchMonitorFrontEnd/BranchMonitorFrontEnd/wwwroot/libs/novnc/core/display.js:253-297 | counterexample: a run of six calls of any new display with clipping after which a visible pixel shows another column's colour, and no damage is recorded that a later flip could repair |
| `DisplaySync.ResizedPixel` | BranchMonitorFrontEnd/BranchMonitorFrontEnd/wwwroot/libs/novnc/core/display.js:189-221 | a framebuffer resize keeps every pixel that exists before and after and clears the others |
| `DisplaySync.MoveKeepsSync` | BranchMonitorFrontEnd/BranchMonitorFrontEnd/wwwroot/libs/novnc/core/display.js:92-132 | a viewport move keeps the visible canvas in step, because it damages the whole viewport |
| `DisplaySync.SizeKeepsSync` | BranchMonitorFrontEnd/BranchMonitorFrontEnd/wwwroot/libs/novnc/core/display.js:134-173 | a viewport resize keeps the visible canvas in step and of the viewport's size |
| `DisplayViewport.SlideIsClamp` | BranchMonitorFrontEnd/BranchMonitorFrontEnd/wwwroot/libs/novnc/core/display.js:92-132 | the step-by-step corrections of a move amount to one clamp into the framebuffer |
| `DisplayViewport.StepKeepsContained` | BranchMonitorFrontEnd/BranchMonitorFrontEnd/wwwroot/libs/novnc/core/display.js:92-173 | no call moves a contained viewport out of the framebuffer; without clipping it is the framebuffer |
| `DisplayViewport.ViewportContained` | BranchMonitorFrontEnd/BranchMonitorFrontEnd/wwwroot/libs/novnc/core/display.js:189-221 | after the first resize of a new display every sequence of calls keeps the viewport inside the framebuffer |
| `DisplayViewport.ResizeContainsIff` | BranchMonitorFrontEnd/BranchMonitorFrontEnd/wwwroot/libs/novnc/core/display.js:205-220 | a resize brings the viewport inside if and only if its column was not negative, or clipping is off and the framebuffer has columns |
| `DisplayViewport.ReadjustContainsIff` | BranchMonitorFrontEnd/BranchMonitorFrontEnd/wwwroot/libs/novnc/core/display.js:74-80 | the same condition for toggling the clip, which readjusts the viewport |
| `DisplayViewport.EarlyMoveEscapes` | BranchMonitorFrontEnd/BranchMonitorFrontEnd/wwwroot/libs/novnc/core/display.js:92-132 | counterexample: a move before the first resize leaves the viewport at column -10 after it |
| `DisplayViewport.MoveContainsIff` | BranchMonitorFrontEnd/BranchMonitorFrontEnd/wwwroot/libs/novnc/core/display.js:92-132 | with clipping a move brings the viewport inside if and only if it goes to the left or reaches column 0 |
| `DisplayOrder.RunOrder` | BranchMonitorFrontEnd/BranchMonitorFrontEnd/wwwroot/libs/novnc/core/display.js:482-574 | for every interleaving of drawing calls and readiness events the screen is the sequential execution of a prefix of the calls, and the queue is the rest |
| `DisplayOrder.AllDrawnOnceLoaded` | BranchMonitorFrontEnd/BranchMonitorFrontEnd/wwwroot/libs/novnc/core/display.js:498-574 | once all pictures are ready everything has been drawn in call order, nothing is queued and no flush is pending |
| `DisplayOrder.StepSettles` | BranchMonitorFrontEnd/BranchMonitorFrontEnd/wwwroot/libs/novnc/core/display.js:303-314 | after every call or event the head of the queue waits for a picture that is not ready, and a flush promise is pending exactly while the queue is not empty |
| `DisplayOrder.RunSettles` | BranchMonitorFrontEnd/BranchMonitorFrontEnd/wwwroot/libs/novnc/core/display.js:491-574 | no wake-up is lost over any run |
| `DisplayOrder.BlitAsAskedIff` | BranchMonitorFrontEnd/BranchMonitorFrontEnd/wwwroot/libs/novnc/core/display.js:394-418 | a blit draws what was asked if and only if the queue is empty or the bytes at offset 0 are the asked ones |
| `DisplayOrder.QueuedBlitLosesOffset` | BranchMonitorFrontEnd/BranchMonitorFrontEnd/wwwroot/libs/novnc/core/display.js:394-418 | counterexample: a blit of one pixel at offset 4 that has to wait draws the pixel at offset 0 |
| `DisplayOrder.ScanSettles` | BranchMonitorFrontEnd/BranchMonitorFrontEnd/wwwroot/libs/novnc/core/display.js:498-574 | a scan stops only at a picture that is not ready and resolves a flush exactly when it empties the queue |
| `DisplayPixels.CopyPixel` | BranchMonitorFrontEnd/BranchMonitorFrontEnd/wwwroot/libs/novnc/core/display.js:333-362 | a copy lays over each pixel of the target the old pixel at the same place of the source rectangle, and changes no other |
| `DisplayPixels.FillPixel` | BranchMonitorFrontEnd/BranchMonitorFrontEnd/wwwroot/libs/novnc/core/display.js:316-331 | a fill gives each pixel of its rectangle the opaque colour, components divided by 255, and changes no other |
| `DisplayPixels.BlitPixel` | BranchMonitorFrontEnd/BranchMonitorFrontEnd/wwwroot/libs/novnc/core/display.js:394-418 | a blit replaces each pixel of its rectangle by the RGBA bytes of that row and column, alpha included, and changes no other |
| `DisplayPixels.ImagePixel` | BranchMonitorFrontEnd/BranchMonitorFrontEnd/wwwroot/libs/novnc/core/display.js:515-524 | an image is composited pixel by pixel over a rectangle of its own size |
| `DisplayPixels.FramePixel` | BranchMonitorFrontEnd/BranchMonitorFrontEnd/wwwroot/libs/novnc/core/display.js:532-556 | a video frame is cut to the announced rectangle, and clear where it is smaller |
| `DisplayPixels.DrawDamages` | BranchMonitorFrontEnd/BranchMonitorFrontEnd/wwwroot/libs/novnc/core/display.js:236-249 | an action grows the damage to the smallest rectangle that holds the old damage and its target, and changes nothing but pixels besides |
| `DisplayPixels.FlipForgets` | BranchMonitorFrontEnd/BranchMonitorFrontEnd/wwwroot/libs/novnc/core/display.js:293-296 | after a flip nothing is damaged and the next action damages exactly its target; the backbuffer and the viewport are untouched |
| `DisplayPixels.MovedTo` | BranchMonitorFrontEnd/BranchMonitorFrontEnd/wwwroot/libs/novnc/core/display.js:92-132 | a move with clipping keeps the size and puts row, and column if it was not negative, at the asked place or the nearest one inside |
| `DisplayPixels.SizedTo` | BranchMonitorFrontEnd/BranchMonitorFrontEnd/wwwroot/libs/novnc/core/display.js:134-173 | the viewport gets the asked size rounded down, or the framebuffer's if that is smaller, without clipping, or if a number is missing |
| `DisplayPixels.ResizedTo` | BranchMonitorFrontEnd/BranchMonitorFrontEnd/wwwroot/libs/novnc/core/display.js:189-221 | a resize takes over the new framebuffer size and shrinks the viewport into it, or spreads it without clipping |
| `DisplayPixels.ClippedTo` | BranchMonitorFrontEnd/BranchMonitorFrontEnd/wwwroot/libs/novnc/core/display.js:74-80 | the clip setter takes over its value and sizes the viewport by it |
| `DisplayPixels.WrongSizeStaysForever` | BranchMonitorFrontEnd/BranchMonitorFrontEnd/wwwroot/libs/novnc/core/display.js:515-522 | a picture of another size than announced stays at the head of the queue, with everything behind it, over any run |
| `DisplayPixels.LoadedIsDrawn` | BranchMonitorFrontEnd/BranchMonitorFrontEnd/wwwroot/libs/novnc/core/display.js:491-496 | any other picture that holds up the queue is drawn once it is loaded, and the scan goes on |
| `DisplayObject.Display.constructor` | BranchMonitorFrontEnd/BranchMonitorFrontEnd/wwwroot/libs/novnc/core/display.js:14-67 | a new display is the fresh state of the state machine |
| `DisplayObject.Display.SetClipViewport` | BranchMonitorFrontEnd/BranchMonitorFrontEnd/wwwroot/libs/novnc/core/display.js:74-80 | the object's clip setter is the state machine's |
| `DisplayObject.Display.ViewportChangePos` | BranchMonitorFrontEnd/BranchMonitorFrontEnd/wwwroot/libs/novnc/core/display.js:92-132 | the object's fields after a move are those of the state machine |
| `DisplayObject.Display.ViewportChangeSize` | BranchMonitorFrontEnd/BranchMonitorFrontEnd/wwwroot/libs/novnc/core/display.js:134-173 | the object's fields after a viewport resize are those of the state machine, defaults, clamping and rounding included |
| `DisplayObject.Display.Resize` | BranchMonitorFrontEnd/BranchMonitorFrontEnd/wwwroot/libs/novnc/core/display.js:189-221 | the object's fields after a framebuffer resize are those of the state machine |
| `DisplayObject.Display.Damage` | BranchMonitorFrontEnd/BranchMonitorFrontEnd/wwwroot/libs/novnc/core/display.js:236-249 | the damage grows to the smallest rectangle that holds the old one and the new area |
| `DisplayObject.Display.PaintDamage` | BranchMonitorFrontEnd/BranchMonitorFrontEnd/wwwroot/libs/novnc/core/display.js:258-296 | the clipping arithmetic of the executed flip computes the flipped screen |
| `DisplayObject.Display.DoFlip` | BranchMonitorFrontEnd/BranchMonitorFrontEnd/wwwroot/libs/novnc/core/display.js:253-297 | a flip from the queue paints and clears the damage; a called one takes its turn |
| `DisplayObject.Display.DoFlush` | BranchMonitorFrontEnd/BranchMonitorFrontEnd/wwwroot/libs/novnc/core/display.js:303-314 | a flush is settled at once if nothing is queued and is pending otherwise |
| `DisplayObject.Display.FillRect` | BranchMonitorFrontEnd/BranchMonitorFrontEnd/wwwroot/libs/novnc/core/display.js:316-331 | a fill paints and damages its rectangle, at once or in its turn |
| `DisplayObject.Display.CopyImage` | BranchMonitorFrontEnd/BranchMonitorFrontEnd/wwwroot/libs/novnc/core/display.js:333-362 | a copy within the backbuffer, at once or in its turn; `DisplayPixels.CopyPixel` says which pixel goes where |
| `DisplayObject.Display.DoImageRect` | BranchMonitorFrontEnd/BranchMonitorFrontEnd/wwwroot/libs/novnc/core/display.js:364-381 | an image is always queued; an empty rectangle is ignored |
| `DisplayObject.Display.VideoFrame` | BranchMonitorFrontEnd/BranchMonitorFrontEnd/wwwroot/libs/novnc/core/display.js:383-392 | a video frame is always queued |
| `DisplayObject.Display.BlitImage` | BranchMonitorFrontEnd/BranchMonitorFrontEnd/wwwroot/libs/novnc/core/display.js:394-418 | a blit draws the bytes from the offset at once, or queues a copy from offset 0 |
| `DisplayObject.Display.DrawPicture` | BranchMonitorFrontEnd/BranchMonitorFrontEnd/wwwroot/libs/novnc/core/display.js:420-430 | drawing a picture composites it and damages its rectangle |
| `DisplayObject.Display.SetFillColor` | BranchMonitorFrontEnd/BranchMonitorFrontEnd/wwwroot/libs/novnc/core/display.js:474-480 | skipping the assignment of a remembered style leaves the right style in force |
| `DisplayObject.Display.RenderQPush` | BranchMonitorFrontEnd/BranchMonitorFrontEnd/wwwroot/libs/novnc/core/display.js:482-489 | pushing scans at once only if nothing was queued |
| `DisplayObject.Display.OnReady` | BranchMonitorFrontEnd/BranchMonitorFrontEnd/wwwroot/libs/novnc/core/display.js:491-496 | a picture that becomes ready wakes the scan only if the head waits for it |
| `DisplayObject.Display.ScanHead` | BranchMonitorFrontEnd/BranchMonitorFrontEnd/wwwroot/libs/novnc/core/display.js:500-566 | one round of the scan executes the head if it is ready and changes nothing otherwise |
| `DisplayObject.Display.ScanRenderQ` | BranchMonitorFrontEnd/BranchMonitorFrontEnd/wwwroot/libs/novnc/core/display.js:498-574 | the scanning loop executes the longest ready prefix of the queue |
| `Websocks.GrownSizeFits` | BranchMonitorFrontEnd/BranchMonitorFrontEnd/wwwroot/libs/novnc/core/websock.js:312-330 | the receive buffer never shrinks and never passes 40 MiB, grows to exactly double its size or eight times what it must hold, and makes room if and only if unread plus incoming is at most 40 MiB |
| `Websocks.Websock.constructor` | BranchMonitorFrontEnd/BranchMonitorFrontEnd/wwwroot/libs/novnc/core/websock.js:239-248 | a new object has empty queues |
| `Websocks.Websock.RQwait` | BranchMonitorFrontEnd/BranchMonitorFrontEnd/wwwroot/libs/novnc/core/websock.js:163-174 | waiting reports a shortage if and only if too few bytes are unread, goes back exactly the asked bytes, and fails when they are no longer in the buffer |
| `Websocks.Websock.RQshiftBytes` | BranchMonitorFrontEnd/BranchMonitorFrontEnd/wwwroot/libs/novnc/core/websock.js:137-144 | the first bytes come out and the rest stays, in order |
| `Websocks.Websock.RQpeekBytes` | BranchMonitorFrontEnd/BranchMonitorFrontEnd/wwwroot/libs/novnc/core/websock.js:152-158 | peeking shows the first bytes and takes none |
| `Websocks.Websock.RQskipBytes` | BranchMonitorFrontEnd/BranchMonitorFrontEnd/wwwroot/libs/novnc/core/websock.js:102-104 | skipped bytes count as taken |
| `Websocks.Websock.RQshiftTo` | BranchMonitorFrontEnd/BranchMonitorFrontEnd/wwwroot/libs/novnc/core/websock.js:146-150 | the bytes land at the start of the target, whose rest is untouched |
| `Websocks.Websock.RQshiftStr` | BranchMonitorFrontEnd/BranchMonitorFrontEnd/wwwroot/libs/novnc/core/websock.js:127-135 | taking a string in steps of 4096 bytes takes the same bytes as taking it at once |
| `Websocks.Websock.RQshift` | BranchMonitorFrontEnd/BranchMonitorFrontEnd/wwwroot/libs/novnc/core/websock.js:106-125 | summing signed 32-bit shifts reads the unsigned big-endian value of the bytes |
| `Websocks.Websock.ExpandCompactRQ` | BranchMonitorFrontEnd/BranchMonitorFrontEnd/wwwroot/libs/novnc/core/websock.js:312-342 | compaction and growth keep the unread bytes; it fails if and only if they cannot fit, with the recorded size already changed |
| `Websocks.Websock.RecvMessage` | BranchMonitorFrontEnd/BranchMonitorFrontEnd/wwwroot/libs/novnc/core/websock.js:345-364 | a message is appended to the unread bytes, and refused if and only if unread plus incoming exceeds 40 MiB |
| `Websocks.Websock.Flush` | BranchMonitorFrontEnd/BranchMonitorFrontEnd/wwwroot/libs/novnc/core/websock.js:217-222 | an open socket sends exactly the queued bytes as one message |
| `Websocks.Websock.SQensureSpace` | BranchMonitorFrontEnd/BranchMonitorFrontEnd/wwwroot/libs/novnc/core/websock.js:224-228 | on an open socket there is room afterwards |
| `Websocks.Websock.SQpush8` | BranchMonitorFrontEnd/BranchMonitorFrontEnd/wwwroot/libs/novnc/core/websock.js:178-181 | sent plus queued grows by the low byte of the number, in messages of 1 to 10240 bytes |
| `Websocks.Websock.SQpush16` | BranchMonitorFrontEnd/BranchMonitorFrontEnd/wwwroot/libs/novnc/core/websock.js:183-187 | sent plus queued grows by exactly two bytes, the digits of the number in base 256, zeros included |
| `Websocks.Websock.SQpush32` | BranchMonitorFrontEnd/BranchMonitorFrontEnd/wwwroot/libs/novnc/core/websock.js:189-195 | sent plus queued grows by exactly four bytes, the digits of the number in base 256 |
| `Websocks.Websock.SQpushBytes` | BranchMonitorFrontEnd/BranchMonitorFrontEnd/wwwroot/libs/novnc/core/websock.js:202-215 | the chunking loop terminates and sent plus queued grows by exactly the bytes, in order |
| `Websocks.PushStallsIff` | BranchMonitorFrontEnd/BranchMonitorFrontEnd/wwwroot/libs/novnc/core/websock.js:202-228 | a round of the chunking loop makes no progress if and only if the queue is full and the socket is not open |
| `Websocks.PushEndsIff` | BranchMonitorFrontEnd/BranchMonitorFrontEnd/wwwroot/libs/novnc/core/websock.js:202-228 | the whole loop ends if and only if the socket is open or all the bytes fit into the queue |
| `Websocks.FullQueueStalls` | BranchMonitorFrontEnd/BranchMonitorFrontEnd/wwwroot/libs/novnc/core/websock.js:202-228 | counterexample: one byte on a full queue of a socket that is not open moves nothing in any number of rounds |
| `Websocks.FifoCompact` | BranchMonitorFrontEnd/BranchMonitorFrontEnd/wwwroot/libs/novnc/core/websock.js:332-341 | moving the unread bytes to the front of any buffer that can hold them keeps taken-then-unread equal to everything received |
| `Integers.Bytes16Value` | BranchMonitorFrontEnd/BranchMonitorFrontEnd/wwwroot/libs/novnc/core/websock.js:183-187 | the two bytes of a number, cut out by signed shifts, have its value modulo 2^16 |
| `Integers.Bytes32Value` | BranchMonitorFrontEnd/BranchMonitorFrontEnd/wwwroot/libs/novnc/core/websock.js:189-195 | the four bytes of a number, cut out by signed shifts, have its value modulo 2^32 |
| `Integers.DigitsGoOut` | BranchMonitorFrontEnd/BranchMonitorFrontEnd/wwwroot/libs/novnc/core/websock.js:183-195 | for every integer the signed shifts yield its two, or four, low digits in base 256 |
| `Integers.NumbersAreReadBack` | BranchMonitorFrontEnd/BranchMonitorFrontEnd/wwwroot/libs/novnc/core/websock.js:106-125 | the receiver's value of the pushed bytes is the number modulo 2^16, or 2^32 |
| `Integers.ShiftSumValue` | BranchMonitorFrontEnd/BranchMonitorFrontEnd/wwwroot/libs/novnc/core/websock.js:119-125 | for one to four bytes the sum of signed shifts, read as unsigned, is the big-endian value |
| `Base64.Encode` | BranchMonitorFrontEnd/BranchMonitorFrontEnd/wwwroot/libs/novnc/core/base64.js:14-43 | the encoding loop computes the encoding by groups of three with a padded tail |
| `Base64.EncodingLength` | BranchMonitorFrontEnd/BranchMonitorFrontEnd/wwwroot/libs/novnc/core/base64.js:14-43 | the encoding of n bytes has 4 * ceil(n / 3) characters |
| `Base64.TablesAgree` | BranchMonitorFrontEnd/BranchMonitorFrontEnd/wwwroot/libs/novnc/core/base64.js:11-12 | decoding a digit of the alphabet gives its index back, and no digit is the pad |
| `Base64.Alphabet` | BranchMonitorFrontEnd/BranchMonitorFrontEnd/wwwroot/libs/novnc/core/base64.js:11-11 | the digits are those of table 1 of RFC 4648, each at its place |
| `Base64.ReadsAs` | BranchMonitorFrontEnd/BranchMonitorFrontEnd/wwwroot/libs/novnc/core/base64.js:72-72 | a character reads as k exactly when its low seven bits are those of the k-th digit, or it is the pad and k is 0 |
| `Base64.GroupIsNumber` | BranchMonitorFrontEnd/BranchMonitorFrontEnd/wwwroot/libs/novnc/core/base64.js:19-24 | four digits are the number that three bytes are, in base 64 instead of 256 |
| `Base64.LongVector` | BranchMonitorFrontEnd/BranchMonitorFrontEnd/wwwroot/libs/novnc/core/base64.js:14-43 | the encoding of "foobar" in section 10 of RFC 4648 |
| `Base64.Decode` | BranchMonitorFrontEnd/BranchMonitorFrontEnd/wwwroot/libs/novnc/core/base64.js:59-103 | the decoding loop with its left-over bits computes the decoding, holes and growth of the array included |
| `Base64.RoundTrip` | BranchMonitorFrontEnd/BranchMonitorFrontEnd/wwwroot/libs/novnc/core/base64.js:59-103 | decoding an encoding gives back every byte, with no error and no unfilled slot, for any length |
| `Base64.RoundTripAt` | BranchMonitorFrontEnd/BranchMonitorFrontEnd/wwwroot/libs/novnc/core/base64.js:59-103 | decoding from an offset gives back the same, whatever stands before it, pads excepted |
| `Base64.IllegalIsSkipped` | BranchMonitorFrontEnd/BranchMonitorFrontEnd/wwwroot/libs/novnc/core/base64.js:72-78 | characters outside the alphabet make no difference to the bytes that are read |
| `Base64.CorruptedIff` | BranchMonitorFrontEnd/BranchMonitorFrontEnd/wwwroot/libs/novnc/core/base64.js:95-100 | decoding throws if and only if the number of legal characters, pads included, is not a multiple of four |
| `Base64.ResultIsExact` | BranchMonitorFrontEnd/BranchMonitorFrontEnd/wwwroot/libs/novnc/core/base64.js:60-64 | the length computed from the place of the first pad is the number of encoded bytes |
| `RA2.RA2Cipher.Increment` | BranchMonitorFrontEnd/BranchMonitorFrontEnd/wwwroot/libs/novnc/core/ra2.js:24-24 | the carry loop adds one to the counter |
| `RA2.NextCounts` | BranchMonitorFrontEnd/BranchMonitorFrontEnd/wwwroot/libs/novnc/core/ra2.js:24-24 | adding one with carry increments the little-endian value and wraps around exactly at the largest |
| `RA2.CounterCounts` | BranchMonitorFrontEnd/BranchMonitorFrontEnd/wwwroot/libs/novnc/core/ra2.js:16-39 | after n messages the counter encodes n modulo 2^128 |
| `RA2.NonceRepeatsIff` | BranchMonitorFrontEnd/BranchMonitorFrontEnd/wwwroot/libs/novnc/core/ra2.js:16-39 | two messages share a nonce if and only if their numbers agree modulo 2^128, so the first 2^128 nonces are distinct |
| `RA2.FirstNonces` | BranchMonitorFrontEnd/BranchMonitorFrontEnd/wwwroot/libs/novnc/core/ra2.js:7-24 | the nonces start at all zeros, and the first byte counts |
| `RA2.RA2Cipher.MakeMessage` | BranchMonitorFrontEnd/BranchMonitorFrontEnd/wwwroot/libs/novnc/core/ra2.js:16-28 | a message is its length in two bytes, high byte first, then its encryption under the current counter, and the counter advances |
| `RA2.RA2Cipher.ReceiveMessage` | BranchMonitorFrontEnd/BranchMonitorFrontEnd/wwwroot/libs/novnc/core/ra2.js:30-39 | a message is decrypted under the current counter, which advances whether or not it is authentic |
| `RA2.ChannelDelivers` | BranchMonitorFrontEnd/BranchMonitorFrontEnd/wwwroot/libs/novnc/core/ra2.js:16-39 | a sender and a receiver that process the same messages in order read every message back |
| `RA2.MakeCredentials` | BranchMonitorFrontEnd/BranchMonitorFrontEnd/wwwroot/libs/novnc/core/ra2.js:286-300 | the index loops fill the credentials buffer with the length and at most 255 bytes of the name, then of the password |
| `RA2.CredentialsReadBackIff` | BranchMonitorFrontEnd/BranchMonitorFrontEnd/wwwroot/libs/novnc/core/ra2.js:286-300 | the buffer decodes to the user name and the password exactly if and only if neither exceeds 255 bytes |
| `PatchService.CopyDirectory` | SFTPService/Service/PatchService.cs:926-945 | whatever the order of entries, a copy that succeeds has laid exactly the source directory over the destination, and it fails only if an operation failed, the token is signalled, or names clash |
| `PatchService.CopyAll` | SFTPService/Service/PatchService.cs:658-681 | the update loop copies every file, or stops with exactly a prefix of the files copied, the next perhaps torn; it stops only for a failure, the token or a clash |
| `PatchService.ApplyUpdate` | SFTPService/Service/PatchService.cs:639-691 | true means the package laid over the application with the right counts; otherwise a prefix of its files was copied, and something failed, the token was signalled, or names clash |
| `PatchService.UpdateIsOverlay` | SFTPService/Service/PatchService.cs:649-688 | in whatever order the package is listed, copying all its files gives the same overlaid tree |
| `PatchService.UpdateCounts` | SFTPService/Service/PatchService.cs:658-688 | replaced is the number of files both have, and replaced plus added the number of package files |
| `PatchService.OverlaidPaths` | SFTPService/Service/PatchService.cs:658-688 | path by path: package files win, the others stay, and new directories are exactly those above package files |
| `PatchService.OverlaysAgree` | SFTPService/Service/PatchService.cs:926-945 | the flat update loop and the recursive copy give the same files, and the same tree if and only if every package directory holds a file or existed before |
| `PatchService.CopiedIsPartly` | SFTPService/Service/PatchService.cs:658-688 | after any prefix of the copies the application is the original with exactly those package files over it |
| `PatchService.DeleteAll` | SFTPService/Service/PatchService.cs:824-835 | the delete phase of a rollback leaves the folder empty unless one of its operations fails |
| `PatchService.Rollback` | SFTPService/Service/PatchService.cs:807-882 | with a backup in place, and nothing failing up to the end of its copy, a rollback restores exactly the backup if and only if the token is not signalled by then or the backup is empty; what fails afterwards does no harm; under a token signalled from the start it leaves the folder empty |
| `PatchService.SignalledRollbackLosesFile` | SFTPService/Service/PatchService.cs:807-882 | counterexample: an application of one file, backed up completely, is empty after a rollback under a signalled token in which nothing fails |
| `FileTrees.OverlayIsExactIff` | SFTPService/Service/PatchService.cs:448-464 | a backup into a folder that exists already is exact if and only if that folder holds nothing else |
| `PatchRun.PatchRun.CreateBackup` | SFTPService/Service/PatchService.cs:448-474 | a backup path is returned only after the whole application has been copied, and always unless something fails; the application is untouched |
| `PatchRun.PatchRun.Publish` | SFTPService/Service/PatchService.cs:947-1023 | a status message goes out at most three times if it reports success, failure or rollback and once otherwise, with the asked status, step, progress and text, and is given up only after as many refusals |
| `PatchRun.PatchRun.Restore` | SFTPService/Service/PatchService.cs:807-837 | the restored folder is the backup unless, by the end of the rollback's copy, the token was signalled or an operation or log of this rollback had failed |
| `PatchRun.PatchRun.Cleanup` | SFTPService/Service/PatchService.cs:886-924 | the cleanup touches no application file, and this run's backup only if fewer than one is kept |
| `PatchRun.PatchRun.RollBack` | SFTPService/Service/PatchService.cs:171-184 | an update found wanting is reported, rolled back to the original unless that rollback was hindered, and then closed with ROLLBACK, COMPLETE, 100; what fails after its copy changes nothing about that |
| `PatchRun.PatchRun.ApplyPatch` | SFTPService/Service/PatchService.cs:75-280 | all or nothing: true means the original overlaid by the package, false the original unless the last rollback was hindered, and an exception after an unhindered rollback the original, too; only failures, the token or a package that cannot be applied prevent true; nothing is written before a complete backup exists, and it is kept; the reports follow one script with its exits in order, up to the one that closes the run; a completed patch or rollback is published only over the right folder |
| `PatchRun.RecordOfRun` | MonitoringBackend/Service/MqttWorker.cs:298-414 | the server's record of every run that closes tells the truth about how it went and what it left: SUCCESS at 100 if and only if it returned true, ROLLBACK at 100 if and only if it rolled back on its own, ERROR at 0 if and only if an exception was caught, and else the phase that failed before there was a backup; the folder is the patched one, or the original unless the rollback was hindered, however often messages are redelivered in a row |
| `PatchRun.LastMessage` | SFTPService/Service/PatchService.cs:75-280 | the status, step and progress of the last message of every way a run can end |
| `PatchRun.ProgressNeverFalls` | SFTPService/Service/PatchService.cs:75-280 | until an exception is caught the published progress never falls |
| `PatchRecord.PatchAssignBranch.HandlePatch` | MonitoringBackend/Service/MqttWorker.cs:298-414 | the field assignments of the handler are the function of record and message that the other lemmas are about |
| `PatchRecord.HandledTwice` | MonitoringBackend/Service/MqttWorker.cs:298-414 | handling is idempotent per message and never clears the finalized mark |
| `PatchRecord.RedeliveryIsHarmless` | MonitoringBackend/Service/MqttWorker.cs:298-414 | delivering each message several times in a row gives the same record as delivering it once |
| `PatchRecord.RecordFollowsRun` | MonitoringBackend/Service/MqttWorker.cs:298-414 | the record takes status, step, progress, text and end time from the last message of every run that closes |
| `PatchRecord.DownloadFollowsRun` | MonitoringBackend/Service/MqttWorker.cs:366-390 | the record says that the patch was downloaded if and only if the last message about the end of the download was a success |
| `PatchRecord.HandledFields` | MonitoringBackend/Service/MqttWorker.cs:298-414 | what each message does to each field, text and end time included |
| `PatchRecord.FinalizedStays` | MonitoringBackend/Service/MqttWorker.cs:298-414 | a finalized record stays finalized under any messages |
| `PatchRecord.LateCopyHarmlessIff` | MonitoringBackend/Service/MqttWorker.cs:298-414 | a message that arrives late leaves status, step and progress as they were if and only if it is ignored, repeats them, or reports a stage of the download that the record already shows |
| `PatchRecord.LateCopiesHarmlessIff` | MonitoringBackend/Service/MqttWorker.cs:298-414 | the record shows the same through any sequence of late messages if and only if each is harmless when it arrives |
| `PatchRecord.LateCopiesAfterRun` | MonitoringBackend/Service/MqttWorker.cs:298-414 | after a closed run any late copies that are ignored, repeat its end, or confirm the download of a success change nothing |
| `PatchRecord.LateStartReopens` | MonitoringBackend/Service/MqttWorker.cs:310-345 | a late copy of the start of the download takes the closed record of every run that got past its download back to IN_PROGRESS |
| `PatchRecord.LateCopyOverwrites` | MonitoringBackend/Service/MqttWorker.cs:372-386 | counterexample: a late copy of the download's success overwrites the status of a rolled-back record |
| `Download.Downloader.DownloadFile` | SFTPService/Service/SftpFileService.cs:297-386 | a run leaves the local file, the notes and the way it ends that the function gives for every plan of outside events; `NotesTellEnd` says what they mean |
| `Download.NotesTellEnd` | SFTPService/Service/SftpFileService.cs:311-380 | FileNotFound if and only if there is a connection and no remote file, AlreadyDownloaded if and only if the sizes agree, Cancelled if and only if the run was aborted, Failed if and only if it threw; only reports of completed attempts come before |
| `Download.NothingToDownload` | SFTPService/Service/SftpFileService.cs:313-319 | without a remote file or a connection nothing changes and no success is reported |
| `Download.FinishedFile` | SFTPService/Service/SftpFileService.cs:351-362 | a finished run leaves what was there and the rest of the remote file behind it, or the remote file over the beginning of what was longer |
| `Download.ThreeAttempts` | SFTPService/Service/SftpFileService.cs:407-505 | two failed attempts do not keep the third from completing, and a third failure ends the run as failed |
| `Download.SignalledRun` | SFTPService/Service/SftpFileService.cs:430-430 | a signalled token ends the run without another attempt |
| `Download.NoFurtherAttempt` | SFTPService/Service/SftpFileService.cs:499-509 | so does one signalled during the delay, and a failed reconnect ends the run as failed |
| `Download.Downloader.DownloadFileWithResume` | SFTPService/Service/SftpFileService.cs:388-512 | up to three attempts, each from the offset reached so far, with the delay and the reconnect between them |
| `Download.Downloader.Attempt` | SFTPService/Service/SftpFileService.cs:413-486 | one attempt, with its log, its note before the stream is closed, a crash, and what closing loses |
| `Download.Downloader.Transfer` | SFTPService/Service/SftpFileService.cs:428-471 | the copying loop with short reads, torn writes, cancellation and failing progress reports |
| `Download.RunKeepsPrefix` | SFTPService/Service/SftpFileService.cs:351-362 | however a run ends, and even if reads stop early, a local prefix of the remote file stays one, unless closing loses bytes |
| `Download.RunIsTruthfulIff` | SFTPService/Service/SftpFileService.cs:297-386 | if reads do not stop early either, success is reported of exactly the remote bytes, and a finished run leaves them, if and only if the run began with a prefix of them |
| `Download.RunIsWholeIff` | SFTPService/Service/SftpFileService.cs:297-386 | however reads end, the file after a run, and every file of which success is reported, is the remote one if and only if the run began with a prefix of it and the length is right |
| `Download.FinishedIsWholeIff` | SFTPService/Service/SftpFileService.cs:413-471 | with no torn write a run that finishes, even on a stream that ended early, leaves the remote file if and only if it began with a prefix of it and reached its end |
| `Download.RunsKeepPrefix` | SFTPService/Service/SftpFileService.cs:297-386 | over any number of runs, crashes, short reads, torn writes and retries from no file the local file is a prefix of the remote one |
| `Download.RunsAreTruthful` | SFTPService/Service/SftpFileService.cs:297-386 | over any number of such runs success is reported only of the whole remote file |
| `Download.CompleteIff` | SFTPService/Service/SftpFileService.cs:351-362 | copying to the end gives the remote file if and only if what was there was a prefix of it |
| `Download.MixedWrite` | SFTPService/Service/SftpFileService.cs:410-445 | writing remote bytes from any offset that was reached only extends them |
| `Download.LostTailIff` | SFTPService/Service/SftpFileService.cs:413-502 | a run of two attempts in which closing loses bytes reports success, and the file is right if and only if all the lost bytes were zeros |
| `Download.TruncatedRun` | SFTPService/Service/SftpFileService.cs:413-481 | counterexample: a run that reports success of the whole file while closing loses its end |
| `Download.EarlyEndRun` | SFTPService/Service/SftpFileService.cs:432-433 | counterexample: a read that delivers nothing too early ends the loop, and success is reported of a part |
| `Download.OldBytesSurvive` | SFTPService/Service/SftpFileService.cs:351-352 | counterexample: a different, shorter local file keeps its bytes under a reported success |
| `ChunkUpload.ChunksFolder.DeployPatchServer` | MonitoringBackend/Controllers/PatchesController.cs:526-543 | a chunk is stored under its index, overwriting a re-send, and the reply follows the folder count |
| `ChunkUpload.ChunksFolder.MergeChunks` | MonitoringBackend/Service/MqttWorker.cs:763-791 | the merged file is the concatenation of the chunks in numeric order, and a folder without chunks is an error |
| `ChunkUpload.ChunksFolder.Process` | MonitoringBackend/Service/MqttWorker.cs:656-698 | a folder with the announced number of chunks of a file is merged to exactly that file; the folder is dropped unless no patch folder is configured or the merge throws |
| `ChunkUpload.ChunksFolder.Upload` | MonitoringBackend/Controllers/PatchesController.cs:526-543 | for every order of sends with repetitions the reply is Complete if and only if no index is missing |
| `ChunkUpload.CountMeansComplete` | MonitoringBackend/Controllers/PatchesController.cs:536-543 | the folder count reaches n if and only if the stored indices are exactly 0 to n-1 |
| `ChunkUpload.OrderFindsAll` | MonitoringBackend/Service/MqttWorker.cs:770-779 | in whatever order the folder is listed, ordering by index gives chunks 0 to n-1 |
| `ChunkUpload.OrderIsStable` | MonitoringBackend/Service/MqttWorker.cs:777-777 | chunks of the same index stay in the order in which they were listed |
| `ChunkUpload.IndexedIff` | MonitoringBackend/Service/MqttWorker.cs:770-776 | exactly the files with an index in their name are merged |
| `ChunkUpload.MergeRebuilds` | MonitoringBackend/Service/MqttWorker.cs:763-791 | merging a complete folder gives the pieces of the original file in order |
| `ChunkUpload.IndexOfName` | MonitoringBackend/Service/MqttWorker.cs:770-775 | the index written into a chunk's name is the one parsed out of it |
| `ChunkUpload.NameOrderIsWrong` | MonitoringBackend/Service/MqttWorker.cs:777-777 | ordering by name instead would put chunk 10 before chunk 2 |
| `ConnectionPools.PoolBound` | SFTPService/Service/SftpFileService.cs:91-239 | in every interleaving of transfers and sweeps there are at most five connections plus one for each time a transfer found the bag empty while a sweep held connections, and no two owners share one |
| `ConnectionPools.CalmPool` | SFTPService/Service/SftpFileService.cs:155-239 | where that never happens the bag stays within its size and a connected client that comes back finds room, although counting and adding are two steps |
| `ConnectionPools.StepKeepsBoundedIff` | SFTPService/Service/SftpFileService.cs:155-209 | the bound of five survives a step if and only if it is not a transfer that finds the bag empty while five connections are in use or in a sweep's hands |
| `ConnectionPools.RunKeepsExclusive` | SFTPService/Service/SftpFileService.cs:155-239 | no interleaving, sweeps included, gives one connection to two transfers, or to a transfer and the bag |
| `ConnectionPools.SlowSweepGrowsThePool` | SFTPService/Service/SftpFileService.cs:91-120 | counterexample: one sweep that takes connections out while n transfers of one second come and go leaves n idle connections, none of them older than its cutoff |
| `ConnectionPools.ConnectionPool.GetConnection` | SFTPService/Service/SftpFileService.cs:155-214 | a connection of the bag that is still connected and was given back at most 15 minutes ago is never passed over, the others met on the way are dropped, and a new one is made only when none such is left |
| `ConnectionPools.ConnectionPool.ReturnConnection` | SFTPService/Service/SftpFileService.cs:216-239 | a connection goes back if it is connected and the bag has room, else it is dropped |
| `ConnectionPools.ConnectionPool.CleanupIdleConnections` | SFTPService/Service/SftpFileService.cs:91-128 | an undisturbed sweep keeps exactly the connections that are still connected and were given back at most 15 minutes ago, and is a run of the pool's steps |
| `Paths.ConvertRealPath` | SFTPService/Service/SftpFileService.cs:241-255 | the loop terminates and computes the normal form; a blank path is an error |
| `Paths.NormalForm` | SFTPService/Service/SftpFileService.cs:246-254 | the result starts with a slash, has no backslash and no double slash, its components are the non-empty parts of the path between slashes and backslashes after the drive prefix, and it ends with a slash exactly when the path ends with a separator or is used up |
| `Paths.IdempotentIff` | SFTPService/Service/SftpFileService.cs:246-254 | normalising again changes nothing if and only if the path, after its drive prefix and leading slashes and backslashes, does not go on with a colon and something behind it |
| `Paths.NotIdempotent` | SFTPService/Service/SftpFileService.cs:247-248 | counterexample: a path that starts with a colon |
| `BranchHub.CountsAgree` | MonitoringBackend/SRHub/BranchHub.cs:27-94 | under every interleaving a branch's count is its map entries plus connects on their way in plus removals on their way out |
| `BranchHub.StepKeepsAgree` | MonitoringBackend/SRHub/BranchHub.cs:27-94 | each atomic step keeps that agreement and keeps every connection in one phase |
| `BranchHub.ClampIsIdle` | MonitoringBackend/SRHub/BranchHub.cs:86-89 | when a connection is uncounted its branch has a positive count, so neither the clamp at 0 nor the default matters |
| `BranchHub.LoweredAtMostOnce` | MonitoringBackend/SRHub/BranchHub.cs:35-43 | over every run each connection is uncounted at most once, by its disconnect or by a cleanup |
| `BranchHub.CountIsListedIff` | MonitoringBackend/SRHub/BranchHub.cs:52-73 | a count equals the branch's map entries if and only if none of its connections is in between |
| `BranchHub.FailedConnectStaysCounted` | MonitoringBackend/SRHub/BranchHub.cs:59-71 | counterexample: a connection that failed after it was counted stays counted after its disconnect |
| `BranchHub.RemoveThenLower` | MonitoringBackend/SRHub/BranchHub.cs:82-88 | an undisturbed disconnect leaves nothing in between |
| `BranchHub.EntryIsNew` | MonitoringBackend/SRHub/BranchHub.cs:73-73 | an entry holds the connection's own branch, user and time |
| `BranchHub.Connections.CountConnect` | MonitoringBackend/SRHub/BranchHub.cs:59-64 | the first half of a connect counts it for its branch unless the id is blank |
| `BranchHub.Connections.InsertConnect` | MonitoringBackend/SRHub/BranchHub.cs:73-73 | the second half of a connect enters it into the map |
| `BranchHub.Connections.YoungSurvives` | MonitoringBackend/SRHub/BranchHub.cs:27-73 | a connection entered no earlier than the threshold outlives a cleanup that follows |
| `BranchHub.Connections.TryRemove` | MonitoringBackend/SRHub/BranchHub.cs:84-84 | removal from the map succeeds for one handler only |
| `BranchHub.Connections.LowerCount` | MonitoringBackend/SRHub/BranchHub.cs:86-89 | uncounting lowers the branch's count by one |
| `BranchHub.Connections.Disconnect` | MonitoringBackend/SRHub/BranchHub.cs:82-98 | an undisturbed disconnect removes its entry and keeps the counts in agreement |
| `BranchHub.Connections.CleanupStaleConnections` | MonitoringBackend/SRHub/BranchHub.cs:27-44 | an undisturbed cleanup removes exactly the entries older than the threshold and keeps the counts in agreement |
| `Topics.TopicMatches` | SFTPService/Service/MQTTHelper.cs:422-449 | the level loop with its early exits decides the matching relation the lemmas are about |
| `Topics.Dispatch` | SFTPService/Service/MQTTHelper.cs:388-420 | a message reaches exactly the handlers of the matching subscriptions, each once and in order |
| `Topics.MatchingKeeps` | SFTPService/Service/MQTTHelper.cs:396-411 | every matching subscription is served as often as it was made, and no other |
| `Topics.MatchingInOrder` | SFTPService/Service/MQTTHelper.cs:396-411 | of any two matching subscriptions the earlier one is served first |
| `Topics.MatchesIsStandard` | SFTPService/Service/MQTTHelper.cs:433-448 | for a filter without # the helper decides exactly as section 4.7.1 of MQTT Version 3.1.1 does |
| `Topics.HashMatchesIff` | SFTPService/Service/MQTTHelper.cs:427-431 | P/# matches if and only if the levels of P are a strict prefix of the topic's levels |
| `Topics.HashVersusStandard` | MonitoringBackend/Helper/MQTTHelper.cs:427-454 | without wildcards in P the standard matches one topic more, P itself, and nothing else |
| `Topics.HashAgreesIff` | MonitoringBackend/Helper/MQTTHelper.cs:427-454 | helper and standard agree on P/# and a topic, wildcards + in P included, if and only if the levels of P are literally a strict prefix of the topic's, or the standard does not match either |
| `Topics.PlusBeforeHashNeverMatches` | MonitoringBackend/Helper/MQTTHelper.cs:432-436 | with a + in P the helper matches no topic name |
| `Topics.PlusBeforeHashMisses` | MonitoringBackend/Helper/MQTTHelper.cs:427-454 | counterexample: the standard matches a/b/c with a/+/#, and the helper does not |
| `Topics.BranchesAreIsolated` | SFTPService/Service/MQTTHelper.cs:422-449 | a branch's subscription never matches a topic of another branch |
| `Topics.TakenApart` | MonitoringBackend/Service/MqttWorker.cs:153-158 | terminal, source and sub-topic are what the branch put into the topic; shorter topics are ignored |

## Left out

- DisplaySync.DirtyRectangleSound: speaks of opaque backbuffer pixels, because with clipping the equality is false for others (`UnpaintedPixelStaysStale`); without clipping it is `DisplayExact.UnclippedRunIsExact`.
- DisplayExact.PaintedRunIsExact: excludes resizes that make the framebuffer grow, because with clipping the new pixels can show stale ones until they are painted.
- DisplayExact.UnclippedRunIsExact: takes blits to be opaque and pictures to have no half-transparent pixels; for others `FlipIsExactIff` says when a flip is exact.
- DisplayObject.Display.ViewportChangeSize: negative sizes, for which a canvas has no meaning, are not modelled.
- DisplayOrder.RunOrder: covers drawing calls, flushes and readiness events; calls that change the viewport add only flips to the queue (`OnlyAddsFlips`) and are covered by `RunSettles`. Blits are restricted to those whose bytes at offset 0 are the asked ones.
- PatchRun.PatchRun.ApplyPatch: false is the original folder unless the last rollback was hindered: by the end of its copy its token was signalled, or a file operation or log of it had failed. Then the run goes on to publish a completed rollback over a folder that may be empty. Of a folder that was written, nothing is claimed when an exception leaves the outermost catch block (`Threw`) without an unhindered rollback: a log throws there, or the token is signalled and the delay or the next try of the message throws. With fewer than one backup kept, nothing is claimed of a rollback after the cleanup.
- PatchRun.RecordOfRun: takes at least one backup to be kept; with fewer the cleanup of a run that then throws may already have deleted its own backup. A message that closes the run must not have been given up (`lost`).
- PatchRun.PatchRun.CreateBackup: takes the backup folder to be new; a folder of the same second would have to hold nothing else (`OverlayIsExactIff`).
- PatchRun.PatchRun.Cleanup: takes this run's backup to be the newest by last write time.
- PatchRun.PatchRun.BeforeBackup: download, checksum, extraction and stopping the applications are phases that do not touch the application folder; a phase that reports false or throws counts as a failure outside.
- PatchRecord.PatchAssignBranch.HandlePatch: parsing the patch id and looking up the row are left out, as is the message to the browser.
- Download.RunsKeepPrefix: holds of plans in which closing a stream loses no bytes; `LostTailIff` and `TruncatedRun` show what happens otherwise. `RunsAreTruthful` also needs reads that deliver bytes until the end.
- Download.Downloader.Attempt: `Completed` is published before the stream is closed, so "the file" in a note includes unwritten buffers.
- Download.Downloader.DownloadFile: files over 2 GB take the chunked path, which is not part of this model: a retried chunk seeks the remote stream but not the local one. Replacing a connection between attempts is a step that succeeds or fails. The logs around the attempts are taken to work, and the notes that a transfer has started are left out.
- ConnectionPools.PoolBound: no transfer replaces its connection in the middle, as the retries do; the source then returns the connection it has already disposed of. Two sweeps do not overlap.
- ChunkUpload.ChunksFolder.DeployPatchServer: concurrent requests, the database rows and the published job are left out; a failed write of a chunk is not modelled.
- ChunkUpload.Parse: `int.TryParse` also takes signs and white space, which the names written by the upload never contain.
- Websocks.Websock.RQshiftBytes: returns a copy; the views that `copy = false` returns, and their aliasing with the queue, are not modelled.
- Websocks.Websock.RQpeekBytes: returns a copy, for the same reason.
- Websocks.Websock.constructor: one attach for each object. `init` resets neither `_rQlen` nor `_sQlen`, so a second attach would start with stale lengths.
- Websocks.Websock.ExpandCompactRQ: a failure is terminal, because the recorded size has already changed when it throws.
- Websocks.Websock.SQpushBytes: requires an open socket or room for all the bytes, by `PushEndsIff`.
- Base64.TablesAgree: the decoding table is written as ranges of character codes; `Alphabet` and `ReadsAs` say which.
- RA2.ChannelDelivers: AES-EAX is a parameter whose decryption inverts its encryption; the key exchange, RSA and the hashes are left out.
- BranchHub.CountsAgree: blank branch ids are recognised by ASCII white space only. Group membership and messages to clients are left out.
- Topics.TopicMatches: compares ordinally, where `StartsWith` follows the current culture; topics that start with `$` are not treated apart.
- Canvas pixels are premultiplied reals; the rounding of real canvases, image smoothing and colour spaces are left out, as are scaling (`autoscale`, `absX`, `absY`) and the decoding of images. An image whose decoded size is wrong never becomes ready, as in the code.
- File contents are opaque in the patch model; access rights, links and open handles appear only as operations that fail.
- The upload direction of the SFTP service, progress messages, speeds and timeouts.
- The restart scripts that the patch service writes and starts.
- `SchedulerService`, the HTTP controllers, the entity models, the MQTT and SignalR clients, loggers and the pages of the front end: plumbing without a hard invariant.
