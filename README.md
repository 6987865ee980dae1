# AscArt core, modelled in Dafny

AscArt is a desktop application that turns images and GIFs into ASCII art. It
has two processes. An Electron main process (`electron/main.js`) runs the UI
windows and the desktop widgets. A Python worker (`python/main.py`) does the
conversions and keeps the history. They talk over the worker's stdin and
stdout, one JSON object per line.

This project models the sequential logic of both sides and proves properties
about it:

- **Lines** (`lines.dfy`): splitting text on `"\n"` the way both
  `String.prototype.split` and `str.split` do, and joining rows with `"\n"`.
  Split and the inverses that undo it are proved here.
- **Framer** (`framer.dfy`): the main process's stdout handler. It keeps
  `outputBuffer`, hands each complete non-blank line that parses to the UI, and
  skips the rest. It also models the `JSON.stringify(args) + "\n"` encoding of
  commands sent to the worker. The proofs show:
  - how the stream is cut into chunks does not matter;
  - the buffer is always the text after the last newline;
  - each encoded command arrives as exactly one line.
- **WidgetRegistry** (`widget_registry.dfy`): the `widgetWindows` list. Opening
  a widget appends it, its `closed` event removes it by
  `indexOf`/`splice`, and a drag moves a window by a delta.
- **WidgetSession** (`widget_session.dfy`): the script each widget window runs.
  It covers frame animation, the frame cache, play/pause and stepping, the
  font-size buttons, the controls toggle, and the 3-pixel drag threshold. A
  class invariant keeps the following true:
  - the current frame is in range;
  - at most one timer callback is pending;
  - the font size stays in 2..20;
  - the drag anchor is consistent.
- **Json** (`json.dfy`): JSON values as the worker reads them. Objects keep
  their fields in order and `get` returns the last field with a key.
- **History** (`history.dfy`): `FileHandler.save_history_entry` appends and
  keeps the last 50 entries. `delete_history_entry` is a bounds-checked
  positional delete. Either write can fail when `open` raises, or part-way
  through `json.dump`, which leaves the file unreadable.
- **ImageProcessing** (`image_processing.dfy`): `ImageProcessor`. It covers the
  character sets, the grey-level to character index, rows joined by `"\n"`,
  the "No image loaded" guard of every step, and the option defaults of
  `process_and_convert`. Image operations done by PIL and rembg are symbolic:
  an `Image` records which operations were applied, in order, and the grey
  pixel grid of an image is an abstract function of it.
- **Worker** (`worker.dfy`): the worker's `main` loop. Each line gets exactly
  one response, chosen by its `command` field. The first empty read ends the
  loop.

Outside effects are parameters:
- an abstract `decode` for `JSON.parse` / `json.loads`;
- the results of `os.path.exists`, the processors and the file handler, given
  as an `Env` per worker line;
- the presence of the rembg package, whether PIL can open an existing file, and whether it accepts the size a resize computes;
- the outcome of each history write;
- whether a widget's scratch file could be written.

## Model

| member | source | states |
|---|---|---|
| Lines.SplitReassembles | electron/main.js:81-84 | no segment of `split("\n")` holds a newline, and the complete lines, each followed by "\n", then the kept last segment give back exactly the input |
| Lines.Split | electron/main.js:81 | `split("\n")`: at least one segment; SplitReassembles, SplitOfTerminated and SplitParts state what the segments are |
| Lines.CompleteLines | electron/main.js:81-87 | the segments `forEach` handles: all but the last; stated by SplitParts and CompleteLinesAppend |
| Lines.Pending | electron/main.js:84 | the segment `pop()` keeps as the buffer; stated by SplitParts and CompleteLinesAppend |
| Lines.Join | python/core/image_processor.py:147 | `"\n".join(rows)`; SplitOfJoin and JoinHasNoTrailingNewline state its properties |
| Lines.SplitOfTerminated | electron/main.js:81-84 | splitting newline-free lines, each terminated by "\n", followed by a newline-free tail gives back exactly those lines and the tail |
| Lines.SplitParts | electron/main.js:81-84 | the split is the complete lines followed by the pending tail; neither contains a newline, and together they rebuild the input |
| Lines.PartsOfTerminated | electron/main.js:81-84 | the complete lines and pending tail of a terminated text are exactly the lines and tail it was built from |
| Lines.CompleteLinesAppend | electron/main.js:78-84 | framing is incremental: the lines completed by `a + b` are those of `a` followed by those of `a`'s pending text plus `b`, and the pending text agrees |
| Lines.SplitOfJoin | python/core/image_processor.py:147 | `"\n".join(rows)` of newline-free rows splits back into exactly those rows |
| Lines.JoinHasNoTrailingNewline | python/core/image_processor.py:147 | when the last row is non-empty, the joined text does not end with a newline |
| Framer.DeliverAppend | electron/main.js:87-105 | the messages sent for two runs of lines are those of the first followed by those of the second: each line is handled on its own |
| Framer.IsJsSpace | electron/main.js:88 | the characters `trim()` removes: ECMAScript white space and line terminators |
| Framer.IsBlank | electron/main.js:88 | `line.trim()` is empty exactly when every character is one `trim()` removes; used by BlankLinesNeverDelivered |
| Framer.DeliverLine | electron/main.js:88-103 | what one line sends on: nothing when blank or unparsable, its message otherwise; stated by SkippedLineDropsOnlyItself and ParsedLineDeliveredInPlace |
| Framer.Deliver | electron/main.js:87-105 | what the `forEach` sends on for a list of lines; stated by DeliverAppend, DeliverAllParsed and HandleLines |
| Framer.FramedLines | electron/main.js:75-84 | the lines completed by a sequence of `data` events; ChunkingIsIrrelevant relates it to the concatenated input |
| Framer.FinalBuffer | electron/main.js:75-84 | the buffer left after a sequence of `data` events; ChunkingIsIrrelevant states it is the text after the last newline |
| Framer.DeliverAround | electron/main.js:87-105 | a line between two runs contributes its own messages in its place |
| Framer.SkippedLineDropsOnlyItself | electron/main.js:88-103 | a blank line, or one that fails to parse, is dropped and the lines around it are delivered as if it were absent |
| Framer.ParsedLineDeliveredInPlace | electron/main.js:88-99 | a non-blank line that parses to `v` contributes exactly `v` at its position |
| Framer.BlankLinesNeverDelivered | electron/main.js:88 | lines that `trim()` to nothing are never parsed and never sent on |
| Framer.DeliverAllParsed | electron/main.js:87-105 | lines that are all non-blank and all parse are all sent on, in order |
| Framer.Encode | electron/main.js:129 | an outbound command is its serialised payload followed by one "\n" and nothing else |
| Framer.ChunkingIsIrrelevant | electron/main.js:75-84 | feeding chunks one `data` event at a time completes the same lines and leaves the same buffer as feeding their concatenation at once |
| Framer.EncodedPayloadFramesAsOneLine | electron/main.js:75-84 | a newline-free payload written as `payload + "\n"`, cut into chunks in any way, leaves an idle framer as exactly one line equal to the payload, and the framer is idle again |
| Framer.EncodedPayloadDeliveredOnce | electron/main.js:75-99 | the same, through the parser: exactly the decoded message is sent on, once |
| Framer.PrintedStreamFramesInOrder | electron/main.js:75-84 | a stream of newline-terminated printed responses, chunked in any way, comes out as exactly those responses in order, with an empty buffer afterwards |
| Framer.CarriageReturnKeepsBlankness | electron/main.js:88 | `trim()` removes a trailing "\r", so a line with one is blank exactly when the line without it is |
| Framer.DeliverIgnoresCarriageReturns | electron/main.js:87-103 | when the decoder ignores a trailing "\r", as `JSON.parse` ignores trailing white space, lines ending in "\r" deliver exactly what the bare lines do |
| Framer.CrLfStreamDeliversSamePayloads | electron/main.js:75-103 | a worker stdout that ends lines with "\r\n", chunked in any way, delivers the same messages as the bare responses and leaves the buffer empty |
| Framer.StdoutFramer.constructor | electron/main.js:72 | the buffer starts empty, with nothing received, completed or sent |
| Framer.StdoutFramer.HandleLines | electron/main.js:87-105 | the `forEach` loop sends on exactly the messages of the parsed non-blank lines, in order |
| Framer.StdoutFramer.OnData | electron/main.js:75-110 | after every chunk the buffer is the text after the last newline of everything received; the completed lines are the old ones followed by the new ones, and what is sent is their parsed non-blank lines |
| WidgetRegistry.WidgetWindow.constructor | electron/main.js:138-151 | a new window has its position and neither a scratch file nor a close request |
| WidgetRegistry.IndexOf | electron/main.js:166 | `indexOf`: -1 exactly when absent, otherwise the first position holding the window |
| WidgetRegistry.Removed | electron/main.js:166-169 | the list after the `closed` handler; RemovedAbsent and RemovedPresent state its effect |
| WidgetRegistry.RemovedAbsent | electron/main.js:165-170 | closing a window that is not listed leaves the list unchanged |
| WidgetRegistry.RemovedPresent | electron/main.js:165-170 | closing a listed window removes exactly that one; the others keep their order, the list shrinks by one and has no repeats |
| WidgetRegistry.DistinctAppend | electron/main.js:154 | appending a new window keeps the list free of repeats |
| WidgetRegistry.Registry.constructor | electron/main.js:8 | the list starts empty |
| WidgetRegistry.Registry.Open | electron/main.js:138-170 | every open appends exactly one fresh window, with no cap and no replacement; a window whose scratch file cannot be written is asked to close |
| WidgetRegistry.Registry.OnClosed | electron/main.js:165-170 | the `closed` event removes exactly that window, if present, and its scratch file; the list stays free of repeats |
| WidgetRegistry.Registry.RequestClose | electron/main.js:654-660 | `close-widget` asks the sending window, if any, to close and changes nothing else about it |
| WidgetRegistry.Registry.MoveWidgetWindow | electron/main.js:662-668 | `move-widget-window` moves the sending window, if any, by exactly the delta |
| WidgetSession.NextIndex | electron/main.js:459 | `(i + 1) % n` is a valid frame: one more, or 0 after the last frame |
| WidgetSession.PrevIndex | electron/main.js:495 | `(i - 1 + n) % n` is a valid frame: one less, or the last frame before frame 0 |
| WidgetSession.PrevAfterNext | electron/main.js:495-512 | stepping back after stepping forward returns to the same frame |
| WidgetSession.NextAfterPrev | electron/main.js:495-512 | stepping forward after stepping back returns to the same frame |
| WidgetSession.StepForward | electron/main.js:459 | the frame after `k` timer steps is always a valid frame; StepForwardAdds and FullCycleReturns state where it lands |
| WidgetSession.StepForwardWithoutWrap | electron/main.js:459 | before the last frame, `k` forward steps add `k` |
| WidgetSession.StepForwardAdds | electron/main.js:459 | `a` steps then `b` steps are `a + b` steps |
| WidgetSession.FullCycleReturns | electron/main.js:456-465 | `n` forward steps return to the frame the animation started from |
| WidgetSession.FrameDelay | electron/main.js:463 | the delay is `gifDelays[i]` when that entry exists and is not 0, and otherwise 100; a negative delay is kept |
| WidgetSession.MissingDelaysUseDefault | electron/main.js:467 | frames beyond the end of a shorter delay list are scheduled after 100 ms |
| WidgetSession.FrameText | electron/main.js:392-402 | `getFrame` returns nothing for a static widget or one without frames; a requested frame that exists and is not empty is shown; whatever is shown is frame 0 or that requested frame |
| WidgetSession.FirstFrameShownAsIs | electron/main.js:379-381 | frame 0, empty or not, is shown as it is |
| WidgetSession.ExceedsThreshold | electron/main.js:555 | a drag needs more than 3 pixels on either axis; SmallMovesAreClicks and MouseMove use it |
| WidgetSession.SmallMovesAreClicks | electron/main.js:555 | a move of at most 3 pixels on both axes is never a drag |
| WidgetSession.Session.constructor | electron/main.js:371-414 | start-up shows frame 0 and schedules the animation for a non-empty GIF, and the static text otherwise; playing starts equal to `isGif`, the font size at 6, the controls visible; the invariant holds |
| WidgetSession.Session.GetFrame | electron/main.js:392-402 | the cache never changes what is returned, and holds only frames as they are |
| WidgetSession.Session.StartAnimation | electron/main.js:453-469 | an animation gets exactly one callback, after the current frame's delay; a static or empty one gets none |
| WidgetSession.Session.ClearTimer | electron/main.js:480-483 | no callback is pending afterwards |
| WidgetSession.Session.ShowNextFrame | electron/main.js:456-465 | the timer shows the next frame and re-arms with that frame's delay, keeping one callback pending and the invariant |
| WidgetSession.Session.TogglePlayPause | electron/main.js:471-485 | playing flips; pausing cancels the callback, resuming schedules one for an animation; the frame is unchanged |
| WidgetSession.Session.PrevFrame | electron/main.js:487-502 | a no-op for a static or empty animation, leaving the frame, the timer, its delay, the display and the cache as they were; otherwise the previous frame is shown and the timer re-armed exactly when playing; playing never changes |
| WidgetSession.Session.NextFrame | electron/main.js:504-519 | as PrevFrame, stepping forward |
| WidgetSession.Session.DecreaseSize | electron/main.js:416-421 | the size drops by exactly 1 when above 2 and is otherwise unchanged; it stays within 2..20 |
| WidgetSession.Session.IncreaseSize | electron/main.js:423-428 | the size grows by exactly 1 when below 20 and is otherwise unchanged; it stays within 2..20 |
| WidgetSession.Session.ToggleControls | electron/main.js:437-445 | the controls' visibility flips |
| WidgetSession.Session.ShowControlsFromMenu | electron/main.js:612-616 | the controls are visible afterwards |
| WidgetSession.Session.CloseWidget | electron/main.js:447-450 | any pending callback is cancelled before the window asks to close |
| WidgetSession.Session.MouseDown | electron/main.js:538-546 | a left press starts a drag anchored at the pointer with nothing moved; other buttons change nothing |
| WidgetSession.Session.MouseMove | electron/main.js:549-562 | while dragging, a move of more than 3 pixels on either axis sends exactly the delta and re-anchors at the pointer; a smaller one sends nothing; the anchor is always the press position plus every delta sent |
| WidgetSession.Session.MouseUp | electron/main.js:565-586 | a left release ends the drag; if nothing moved, an open menu is closed, or else the controls are shown |
| Json.Get | python/main.py:45 | `data.get(key)` finds a value exactly when the key is present |
| Json.GetAt | python/main.py:44-45 | a field that no later field overrides is what `get` returns |
| Json.GetReturnsLastField | python/main.py:44-45 | `get` returns the value of the last field with that key |
| History.LoadedOrEmpty | python/core/file_handler.py:78-84 | save starts from the stored list, or from an empty list when the file is missing or unreadable |
| History.Prefix | python/core/file_handler.py:90 | `s[:500]` is a prefix of length `min(500, len)` |
| History.LastN | python/core/file_handler.py:103 | `h[-50:]` is the last `min(50, len)` entries |
| History.MakeEntry | python/core/file_handler.py:87-98 | the entry dictionary; EntryFixedFields, EntryGifFields and EntryWithoutGifFields state its fields |
| History.Saved | python/core/file_handler.py:100-103 | the list after a save; SavedKeepsMostRecent states its length, order and last entry |
| History.AfterWrite | python/core/file_handler.py:106-107 | writing a list back stores it, leaves the file as it was when `open` raises, and leaves it unreadable when the dump raises |
| History.FailedDumpLosesHistory | python/core/file_handler.py:78-107 | after a dump that fails part-way the next save starts from an empty list; after a failed `open` it starts from the old list; after a write, from the written one |
| History.EntryFixedFields | python/core/file_handler.py:87-93 | the entry records the timestamp it is given, the full text, its 500-character preview, the options and `isGif` |
| History.EntryGifFields | python/core/file_handler.py:96-98 | a GIF entry with non-empty frames and delays records both |
| History.EntryWithoutGifFields | python/core/file_handler.py:95-98 | without `is_gif`, or with no frames or no delays, neither is recorded |
| History.SavedKeepsMostRecent | python/core/file_handler.py:100-103 | after a save the new entry is last, the length is `min(old + 1, 50)`, and the kept earlier entries are the most recent ones, in order |
| History.RemoveAt | python/core/file_handler.py:125-126 | `pop(index)` removes exactly that entry; the others keep their order |
| History.RepeatedDeleteShifts | python/core/file_handler.py:111-134 | two deletes of index 0 remove the first two entries: each index refers to the list as the previous delete left it |
| History.FileHandler.constructor | python/core/file_handler.py:12-14 | the handler starts over the given history file |
| History.FileHandler.SaveHistoryEntry | python/core/file_handler.py:73-109 | the stored (or empty) list with the new entry appended and truncated to the last 50 is written back; a failed `open` raises and leaves the file, a failed dump raises and leaves it unreadable |
| History.FileHandler.DeleteHistoryEntry | python/core/file_handler.py:111-134 | deletes exactly when the file holds a list and `0 <= index < len`: the list without that entry is written back and true returned, or the write's error raised; otherwise returns false and leaves the file unchanged |
| ImageProcessing.CharsFor | python/core/image_processor.py:128 | a known charset name gives its characters and any other name the `'detailed'` ones; every set has at least two characters and no newline |
| ImageProcessing.UnknownCharsetIsDetailed | python/core/image_processor.py:26-30 | an unknown name draws like `'detailed'`, which is the same set as `'standard'` |
| ImageProcessing.CharIndex | python/core/image_processor.py:138-139 | the index of a grey level is always a valid character index; 0 gives the first character and 255 the last |
| ImageProcessing.CharIndexMonotone | python/core/image_processor.py:136-139 | lighter pixels never get darker characters |
| ImageProcessing.EndpointCharacters | python/core/image_processor.py:136-139 | black draws the set's first character and white a space, in every set |
| ImageProcessing.RenderRow | python/core/image_processor.py:144 | a text row has one mapped character per pixel |
| ImageProcessing.RenderRows | python/core/image_processor.py:143-145 | one text row per pixel row |
| ImageProcessing.AsciiArtLines | python/core/image_processor.py:142-147 | the text has one line per pixel row, each as long as its row and made of its mapped characters |
| ImageProcessing.AsciiArt | python/core/image_processor.py:142-147 | the text `convert_to_ascii` returns for a grid; AsciiArtLines states its lines |
| ImageProcessing.PipelineImage | python/core/image_processor.py:156-186 | the image the steps of `process_and_convert` end with, or their error; PipelineErrors, NeutralAdjustmentsAreSkipped and KeepOriginalSkipsResize state its properties |
| ImageProcessing.Converted | python/core/image_processor.py:156-191 | what `process_and_convert` returns or raises; ConvertedExistingFile and DefaultsResizeTo120Detailed state it |
| ImageProcessing.PipelineErrors | python/core/image_processor.py:156-191 | the pipeline fails exactly for a missing file, for a file `Image.open` cannot identify, for background removal without rembg, or for a resize PIL rejects (not with `keepOriginal`), each with its own error text, the first one met winning |
| ImageProcessing.ConvertedExistingFile | python/core/image_processor.py:156-191 | for an existing file, `process_and_convert` either draws the processed image with the chosen characters, or fails with "Processing error: " and the `Image.open` error, the rembg message or the resize error, and only then |
| ImageProcessing.DefaultsResizeTo120Detailed | python/core/image_processor.py:156-191 | with no options the image is only resized to width 120 and drawn with the `'detailed'` characters; the only possible failures are `Image.open` rejecting the file and that resize, each re-raised as "Processing error: " |
| ImageProcessing.NeutralAdjustmentsAreSkipped | python/core/image_processor.py:167-173 | brightness 0 and contrast 100 are the same as leaving them out |
| ImageProcessing.KeepOriginalSkipsResize | python/core/image_processor.py:100-101 | with `keepOriginal` the image is never resampled; without it the last step is one resize to the requested width (120 by default) |
| ImageProcessing.ImageProcessor.constructor | python/core/image_processor.py:32-34 | no image and no original are loaded |
| ImageProcessing.ImageProcessor.LoadImage | python/core/image_processor.py:36-48 | a missing file raises "Image not found", and a file `Image.open` cannot identify raises its error, both changing nothing; otherwise both images become the opened file |
| ImageProcessing.ImageProcessor.RemoveBackground | python/core/image_processor.py:50-66 | raises "No image loaded" without an image, the rembg message without the package, and otherwise removes the background |
| ImageProcessing.ImageProcessor.AdjustBrightness | python/core/image_processor.py:68-76 | raises "No image loaded" without an image, and otherwise applies the brightness |
| ImageProcessing.ImageProcessor.AdjustContrast | python/core/image_processor.py:78-86 | raises "No image loaded" without an image, and otherwise applies the contrast |
| ImageProcessing.ImageProcessor.InvertColors | python/core/image_processor.py:88-93 | raises "No image loaded" without an image, and otherwise inverts it |
| ImageProcessing.ImageProcessor.ResizeImage | python/core/image_processor.py:95-120 | raises "No image loaded" without an image; `keep_original` leaves the image exactly as it is; otherwise a size PIL rejects raises and leaves the image, and an accepted one resizes to the width |
| ImageProcessing.ImageProcessor.Reset | python/core/image_processor.py:149-154 | returns to the original image when one was loaded, and otherwise changes nothing |
| ImageProcessing.ImageProcessor.ConvertToAscii | python/core/image_processor.py:122-147 | raises "No image loaded" without an image; otherwise the text is the image's grey rows mapped to characters and joined by "\n" |
| ImageProcessing.ImageProcessor.ProcessAndConvert | python/core/image_processor.py:156-191 | the steps, run in order with their defaults, give exactly the pipeline's result, including a file `Image.open` rejects and a rejected resize, and any failure becomes "Processing error: ..."; a missing or unopenable file leaves both images as they were, otherwise the opened file is the original, and a run without failures leaves the pipeline's image as the current one |
| Worker.Status | python/main.py:48-187 | a response's status is "success" exactly for pong, the two conversion results, a save and a history list, and "error" otherwise |
| Worker.ErrorText | python/main.py:64-187 | every error response other than an unknown command has an `error` text, and only error responses have one |
| Worker.UnknownCommandText | python/main.py:165-167 | a command named by a string is reported as "Unknown command: " and the name; a missing one as "Unknown command: None" |
| Worker.LastIndex | python/main.py:72 | the last position holding a character, or -1, with no later occurrence |
| Worker.Extension | python/main.py:72 | `splitext(path)[1]` is empty or a suffix of the path starting at a dot, with no further dot or separator |
| Worker.CommandOf | python/main.py:51-165 | each branch is chosen exactly when `command` is the string with that name |
| Worker.OptionsOf | python/main.py:59 | `data.get('options', {})`: an absent field is the empty dictionary, and every option the pipeline reads is the request's field of that name, absent when the field is absent or, for a flag, the charset or the ratio, `null` |
| Worker.AppOptionsAreRead | src/App.js:66-79 | the options object the desktop app sends, with all eight fields and `"ratio": null` when no ratio is chosen, is read as exactly those values, the null ratio as no ratio |
| Worker.AppDefaultsAreNoOptions | src/App.js:20-27 | the app's starting settings convert exactly as a request without options does, so DefaultsResizeTo120Detailed describes the app's default request |
| Worker.PyTruthy | python/main.py:64 | Python's truth value of a decoded value, as `if not path` tests it |
| Worker.ScalarText | python/main.py:69 | `str(value)` exists exactly for a scalar, and is the string itself for a string |
| Worker.CommandText | python/main.py:167 | `str(command)`, "None" for an absent field; UnknownCommandText states it for a string name |
| Worker.ConvertResponse | python/main.py:56-104 | the `convert` branch; ConvertRejectsBadPaths, ConvertChoosesByExtension and ImageConversionResponse state it |
| Worker.SaveResponse | python/main.py:107-134 | the `save` branch; SaveReportsPath states it |
| Worker.HistoryResponse | python/main.py:137-163 | the `get_history` branch; HistoryIsReturnedAsStored states it |
| Worker.Respond | python/main.py:44-187 | the response to one line; the lemmas from InvalidJsonIsAnswered to DeleteHistoryIsUnknown state each branch |
| Worker.InvalidJsonIsAnswered | python/main.py:174-179 | a line that is not JSON is answered with "Invalid JSON: " and the decoder's message |
| Worker.NonObjectIsAnswered | python/main.py:181-187 | JSON that is not an object fails on `data.get` and is answered as an unexpected error |
| Worker.PingAnswersPong | python/main.py:51-52 | `ping` answers success with the pong message |
| Worker.ConvertRejectsBadPaths | python/main.py:64-69 | `convert` with a missing or falsy path answers "No file path provided"; a string or integer path that does not exist answers "File not found: " and the path's text |
| Worker.ConvertChoosesByExtension | python/main.py:72-95 | an existing path gives a `gif-result` only for a `.gif` extension in any letter case and an `ascii-result` only for any other; each carries the processor's result or its failure |
| Worker.ImageConversionResponse | python/main.py:56-95 | with the pipeline run on the request's options, an existing non-GIF path is answered with the pipeline's text exactly when `Image.open` accepts the file, rembg is not missing and the resize is not rejected; those three failures are answered as "Conversion failed: Processing error: ..." with their own text, and "Image not found" cannot reach the response |
| Worker.ConvertWithoutOptionsUsesDefaults | python/main.py:59-95 | a `convert` request without `"options"` draws an existing non-GIF image resized to width 120 with the `'detailed'` characters, or answers the `Image.open` or resize error |
| Worker.SaveReportsPath | python/main.py:107-134 | `save` is answered by the save branch, which consults only the HTML writer for `format` "html" and only the text writer otherwise, succeeding exactly when that writer did and reporting its path or "Save failed: " and its error |
| Worker.HistoryIsReturnedAsStored | python/main.py:137-163 | `get_history` without a file gives an empty list, a stored list comes back as it is, and a stored number, boolean or null fails |
| Worker.OtherCommandsAreUnknown | python/main.py:165-167 | every other command, or none, is answered as unknown |
| Worker.DeleteHistoryIsUnknown | python/main.py:165-167 | a `delete_history` request is answered as an unknown command, since the dispatcher has no branch for it |
| Worker.UpperCaseGifIsGif | python/main.py:72-75 | `cat.GIF` has a GIF extension |
| Worker.DotFileHasNoExtension | python/main.py:72 | a file named `.gif` has no extension and is converted as an image |
| Worker.DotInFolderIsNoExtension | python/main.py:72 | a dot in a folder name is not an extension |
| Worker.FirstEof | python/main.py:38-41 | the position of the first empty read: all reads before it hold a line |
| Worker.Serve | python/main.py:35-187 | exactly one response per line before the first empty read, in order, each the dispatcher's answer for that line; nothing for the empty read or after it |

## Left out

- Process and IPC plumbing in the main process: spawning the worker, its `error` and `exit` handlers, `kill`, the `ipcMain` and `ipcRenderer` channels, and `BrowserWindow` creation and options. Only their effect on the list and the state is modelled.
- The widget template's HTML and CSS, `innerHTML` and class-list updates, the frame and size labels, and the context menu's own visibility. The menu's state when the button is released is an input to `MouseUp`.
- Real timers: a pending `setTimeout` is a counter with the delay it was given. Wall-clock time is not modelled.
- The widget id from `Date.now()` and `Math.random()`, and the scratch file's path, write and unlink. The scratch file is a flag: set when written at open, cleared on close.
- Stdout chunks are modelled as text that has already been decoded. UTF-8 decoding of a multi-byte character split across chunks is not modelled.
- `JSON.parse`, the property reads when logging, and `webContents.send` are one abstract `decode` that either yields a message or fails. The inner `catch` skips a line in every one of these failure cases. The outer `try`/`catch` (electron/main.js:106-109) cannot fire in the model, since splitting never throws. Because the decode is one fixed function, delivery that depends on the main window's state is not expressed: after the main window is closed, `mainWindow.webContents.send` throws and every later line is dropped (electron/main.js:98, 116).
- The main process has no single-widget policy. Every open appends a window, as the code does.
- WidgetSession.Session.ShowNextFrame: the early return in `showNextFrame` when not playing is covered only via the invariant. A pending callback always means playing, so in the model that branch is never reached.
- The widget's frame delay replaces only 0 or a missing entry with 100, as `gifDelays[i] || 100` does. A negative delay is kept.
- Whether PIL accepts a resize is an input: the height is computed in floating point, and a height or width that rounds to 0 makes PIL raise "height and width must be > 0". The model takes that outcome, not the arithmetic.
- ImageProcessing.CharIndex: the source computes `(pixels / 255) * char_count` in floating point and truncates it. The model uses the exact integer `p * (len - 1) div 255`. For the two character sets, `len - 1` is 9 or 4. The exact quotient is then an integer only at p = 0, 85, 170 or 255 (for 9) or p = 0 or 255 (for 4), and there the double product rounds to that integer. At every other grey level it is at least 1/255 away from an integer, far more than the rounding error. So the two agree on every grey level, though the model does not prove the floating-point half of this.
- PIL, numpy and rembg operations are symbolic `Image` constructors: opening, greyscale conversion, background removal, enhancement, inversion and LANCZOS resampling. So are the floating-point quantities behind them: the brightness and contrast factors, and the height from the aspect ratio or a `"w:h"` ratio with its 0.55 factor. Whether `Image.open` can identify an existing file is an input: its error, such as "cannot identify image file", is what the pipeline then raises.
- Worker.OptionsOf: the options of `process_and_convert` are a typed record read from the request. A `null` flag, charset or ratio is read as absent, which is how the pipeline treats it. `OptionsOf` gives `None`, and the model says nothing, for three shapes: an options value that is not a dictionary; a `null` width, brightness or contrast, which makes `resize_image` (unless the original size is kept) or the adjustment raise a `TypeError`; and a value of another type, such as a string width, a numeric flag or a list, whose effect depends on Python's operators on that type.
- `python/core/gif_processor.py` is not part of this model. Its result, or its failure, is an input to the `convert` branch.
- File I/O in the worker is abstract: `open`, `json.load`/`json.dump`, `os.makedirs` and `os.path.exists`. The `save_ascii_text` and `save_ascii_html` templating is abstract too. Each is an input giving the path written or the error raised. For the history writes that input is a `WriteResult`: written, `open` failed with the file left as it was, or `json.dump` failed part-way with the file left unreadable.
- A history file whose JSON is not a list is not modelled for the history store. The `get_history` branch does take any JSON value.
- Worker.CommandText: an unknown command that is a list or an object has no modelled text. Python would print its `str` form.
- JSON numbers are integers. Floating-point numbers and the `float` type name are not modelled.
- A truthy `path` that is a list or an object makes `os.path.exists` raise. An integer or boolean path is checked as a file descriptor: when it does not exist the answer is "File not found: " and its text, and when it does, `os.path.splitext` raises. Both raised errors become one `ConversionFailed` response whose message is an input. A floating-point path is not modelled.
- The gallery's delete request sends `delete_history` with an index computed against its local copy. The worker answers it as an unknown command (modelled), so nothing is deleted. The gallery's local list handling is not modelled.
- Logging to stderr and the console is not modelled.
