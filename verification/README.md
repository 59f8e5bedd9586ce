# SaaiOS: models and proofs

This project models the parts of SaaiOS whose correctness depends on state that is updated step by step, and proves
what those parts are for. Every module is named after the component it models. Mutable components are classes with
loops and frames; each is tied to a pure function, and the main results are proved about that function for every
input, every run or every reachable state.

| module (file) | component |
|---|---|
| Pixels, Retained, Glyphs, LogArea, FramebufferConsole (Console.dfy) | the retained framebuffer console of PID 1, as bytes of the mapped memory |
| Framing, ModelStream, WebForward | line framing of the two stream readers, and what they make of the lines |
| Bytes, BootImage | Android boot image packer and parser, header versions 0 to 2 |
| PcmPlay, WavScan | WAV chunk scan, resampler and PCM write loop |
| Policy, Audit, AgentRun, AgentLoop, Runtime, Verdicts, Answers, ConfirmLoop, Confirmations | policy engine and kill guard, audit log and replay, one diagnose run as steps and as loops, all runs and confirmations interleaved, the verdicts of runs and the grants behind them, what runs log and answer, one confirmation on policy engine and log, confirmations against questions |
| Conversation | chat history trimming |
| Automation | rule cooldowns on one worker |
| MemoryStore | append-only fact log and its compact view |
| AbSlots | A/B slot scripts and the status reader |
| Jpeg, FindKey | JPEG frame-header scan, token search of touchlab |

## Reading the main results

**Console.** A run is any sequence of `draw_console` and `log_line`. Its effect is the list of `put_pixel` calls it
makes; `LastWrite` says what byte each address ends up with. `HeaderIffConfined` compares the run with one full
repaint of the texts drawn last, byte for byte, and finds the exact condition: `put_pixel` stores two bytes up to 16
bits per pixel and four above, so with 1 to 8 or 17 to 24 bits per pixel every store is one byte longer than a pixel.
If the scan line has no spare byte, the last pixel of a line writes the first byte of the next line. A skipped repaint
then shows (`SpillShows`: the battery line is repainted and the backlight line below it is not), unless the background
has the same byte there anyway. With 9 to 16 or 25 to 32 bits per pixel, or with a spare byte per line, the header
always equals a full repaint. So it does on panels of fewer than 154 lines, whose header ends before the backlight
line. The comment at os/init/init.c:331-337 speaks of keeping log text out of the header on panels of at most 400
lines; the code protects the lines above `yres / 2` there, and that is what `HeaderStaysPainted` states for them.
Log lines stand twenty lines apart from the floor on, and start again there when the next would come into the last 24
lines (`RowsInTurn`). On a panel of more than 400 lines, where a draw does not reach into the log, the last lines that
one pass holds stay readable whatever is drawn and logged after them (`LogLinesShow`), and so do the static labels and
the fields (`LabelsAreReadable`, `FieldsAreReadable`). On a smaller panel a log line stays readable until the next draw.

`MappingHoldsStores` says when all stores lie inside the memory that `setup_fb` maps: the classes ask for no more than
that. Where the driver reports no size, or more than 32 MiB, this fails for padded lines and for stores longer than a
pixel.

**Streams.** JSON parsing and UTF-8 decoding are arbitrary functions. The model's answer and the forwarded frames
depend on the concatenation of the chunks only. `ResponseMeans` speaks of responses as a server writes them: event
lines, each a "data:" field around a JSON text, and lines that are none. What the parser gets is exactly those texts,
except the end marker. An empty field hands it the empty text, which is no JSON (`EmptyLine`).

**Boot image.** Reading back what was packed gives the packed parts if and only if the header version can carry them
(version 0 drops a recovery part, versions 0 and 1 drop a dtb), and packing again is a fixed point under the same
condition. The `unpack` and `pack` commands, which pass through files, lose a second-stage or recovery part as well,
and pick up a dtb file that an earlier `unpack` left in the directory; `UnpackThenPack` covers any such file. What
`pack` puts behind the parts is in `PackedTail`: the marker, then zeros up to the partition size, and nothing else.

**Playback.** `Interpolated` says what an output frame has to be without naming the division that the code does: on
each side the sum of the two neighbouring samples of that side, weighted by distance, over 48000 and rounded towards
zero. One number meets that, and it is the stored one (`OutputIsInterpolated`).

Output frame i is stored at `dst[i * 2]`, and frame n is offered at `stereo + (n + off) * 2`, in 32-bit arithmetic, so
index 2^31 comes back to the start; and the rounded number of output frames is itself cut to 32 bits. `Resample` and
`WritePcm` follow that arithmetic. The buffer holds every frame that the file makes at 48000 Hz if and only if there
are at most 2^31 of them (`BufferHoldsAll`), and then, and only then, a device that takes every frame offered gets the
whole file once and in order (`PlaysTheFile`). A file of 44740 mono frames at 1 Hz passes every check of `load_wav` and
loses its first frame (`FirstFrameOverwritten`). From 2^32 frames on the count is cut: of 89479 mono frames at 1 Hz all
but the first 24704 output frames are dropped (`EndOfFileDropped`).

**Runtime.** `AgentRun` is one request as a step machine, `AgentLoop` the loops that take its steps; `Runtime`
interleaves any number of requests, confirmations, grant clears and automation events in any order. The model, the
tools, the user and time are oracles in the actions; record ids come from a counter, so they are fresh. The audit log
of every finished run has the shape `OkShape`; a tool is executed only when the log has an allow decision on that call
with those arguments, or a confirmation of its call id that is not a cancel, and no decision executes twice however the
run ends. A confirmation is not compared with a question: two confirmations of a call that nobody asked about both
execute it (`NobodyAsked`). Confirmations execute only what a run asked about, and each question once, if and only if
each of them, when it starts, names call, tool and arguments of a question in the log that no such confirmation named
before (`ConfirmationsAnswerQuestions`). The policy judges a 64-bit process id and the tool signals a 32-bit one: the
process signalled is the one named if and only if the id fits 32 bits (`NamedProcessIff`, `AnotherProcessSignalled`).

Every decision that a run logs is the one the policy owes under the grants in force at that moment
(`VerdictsFollowPolicy`), and a tool is granted exactly when a Session confirmation of it took its grant and nobody
cleared the grants since (`GrantedIff`). So what a run executes of a tool that is risky or asks for confirmation, it
executes after such a confirmation (`RiskyRunsWereGranted`). What a completed run answers is the last text of the model
or, if that is empty, what the process list told it (`CompletedRunAnswers`).

**History.** Trimming as one goes equals trimming the whole transcript, except when trimming emptied the history and
the next message is a tool result; that exception is exact.

**find_key.** Skipping a whole key length after a hit in mid-token is right on every buffer if and only if the key has
no border that starts after a gap; the keys of touchlab have no gap at all.

**jpeg_info.** Fill bytes, which may precede any marker, are read as the marker of a segment. Before the frame header
they make the scan miss it unless their number is a multiple of 65537 (`FillBytesMislead`).

## Model

| member | source | states |
|---|---|---|
| Pixels.StoreInMapping | os/init/init.c:244-253 | all stores of put_pixel on the panel lie inside a mapping of n bytes if and only if the store to the last pixel does |
| Pixels.MappingHoldsStores | os/init/init.c:408-412 | all stores lie inside the memory that setup_fb maps if and only if the reported size reaches to the end of the last one or, where the size of the pixels is mapped instead, lines are packed and no store is longer than a pixel |
| Pixels.ScanLinesSuffice | os/init/init.c:244-253 | memory for the scan lines alone holds all stores if and only if stores keep to their line |
| Pixels.RowConfined | os/init/init.c:244-253 | a store touches a byte of another scan line only if the line has no spare byte and the byte is the first of its line |
| Pixels.LineStartTouched | os/init/init.c:244-253 | the first byte of a line is reached by the line's first pixel and, on a line without spare byte, by the last pixel of the line above, with the byte just past a pixel |
| Pixels.PixelIsStored | os/init/init.c:244-253 | on the panel, put_pixel leaves the colour as a little-endian word at the place of the pixel and every other byte as it was; off the panel, everything |
| Pixels.DotsAreBits | os/init/init.c:352-366 | the lowest bit of a font row is its leftmost dot |
| Pixels.FillCovers | os/init/init.c:301-312 | a full-width fill writes every visible byte of its lines |
| Pixels.FillExact | os/init/init.c:301-312 | fill_rect puts exactly the pixels of the rectangle that lie on the panel, in its colour |
| Retained.FieldTextsAre | os/init/init.c:1097-1133 | each status line, built by capped appends, is its parts in a row, cut once to the buffer |
| Retained.FieldKeepsToBand | os/init/init.c:1060-1068 | repainting a field writes every visible byte of its twenty lines, and none above the log outside of them that only its own line reaches |
| Retained.CacheHoldsLastDraw | os/init/init.c:1053-1068 | after any run the cached texts are those of the last draw, and there are some exactly when something was drawn |
| Retained.RunStaysTruthful | os/init/init.c:1060-1134 | after any interleaving of draws and log lines the cache tells what the header bytes are |
| Retained.HeaderStaysPainted | os/init/init.c:301-383 | after any run that has drawn, the lines above the log equal, byte for byte, one full repaint of static lines and last field texts, on every panel of at least 24 lines whose stores are confined or whose header ends before the second field |
| Retained.SpillShows | os/init/init.c:1060-1068 | on any other panel, repainting the battery line alone leaves a foreign byte in the backlight line, which a full repaint would not |
| Retained.HeaderIffConfined | os/init/init.c:1053-1134 | the cached header equals a full repaint after every run if and only if stores are confined or the panel has fewer than 154 lines |
| Glyphs.TextShows | os/init/init.c:314-366 | draw_str shows every character that fits before the last column, dot by dot as the font has it, doubled |
| Glyphs.FitsMeans | os/init/init.c:314-324 | a character is drawn if and only if it is the first or ends before the last column |
| Glyphs.FieldShowsLastText | os/init/init.c:1070-1134 | after any run each field shows the text drawn last, dot by dot, as far as it lies above the log |
| LogArea.RowsInTurn | os/init/init.c:374-382 | the first line stands at the floor, each next one twenty lower, and at the floor again if and only if it would come into the last 24 lines of the panel |
| LogArea.TargetRows | os/init/init.c:374-382 | on a panel of 1600 lines they stand at 240 to 1540, sixty-six in a pass |
| LogArea.LogLineStands | os/init/init.c:368-383 | whatever was drawn and logged before, a line goes to the row of its number, and nothing else is stored |
| LogArea.LogLinesShow | os/init/init.c:368-383 | after any run the last lines that one pass holds are readable on their rows, dot by dot, on panels whose header a draw keeps to, and elsewhere until the next draw |
| LogArea.LabelsAreReadable | os/init/init.c:1082-1095 | on a panel of more than 400 lines the banner, the resolution and the three help lines are readable after every run that has drawn |
| LogArea.FieldsAreReadable | os/init/init.c:1096-1134 | so are the five fields, at lines 56 to 136, with the texts drawn last |
| FramebufferConsole.Console.PutPixel | os/init/init.c:244-253 | memory changes by that one store, or not at all off the panel |
| FramebufferConsole.Console.FillRect | os/init/init.c:301-312 | memory changes by the clipped rectangle of stores, in row order |
| FramebufferConsole.Console.PutCell | os/init/init.c:360-364 | one font bit stores a block of two by two pixels |
| FramebufferConsole.Console.DrawChar | os/init/init.c:352-366 | memory changes by the glyph's stores; characters outside 32 to 126 show as a question mark |
| FramebufferConsole.Console.DrawStr | os/init/init.c:314-324 | memory changes by the stores of the characters that fit |
| FramebufferConsole.Console.SetField | os/init/init.c:1060-1068 | nothing is stored when the text is the cached one; otherwise the field is repainted; the cache holds the text afterwards |
| FramebufferConsole.Console.DrawStatic | os/init/init.c:1082-1095 | the header down to the log is cleared and the five static labels are written |
| FramebufferConsole.Console.constructor | os/init/init.c:418-427 | on a mapping that reaches to the end of the last store, the console starts with nothing cached and the log at its floor, whatever the memory holds |
| FramebufferConsole.Console.DrawConsole | os/init/init.c:1070-1134 | the first draw paints the static lines; every draw sets the five fields; memory and cache change accordingly and the log position stays |
| FramebufferConsole.Console.LogLine | os/init/init.c:368-383 | the line goes to the log position, which returns to the floor near the bottom and moves on by twenty |
| FramebufferConsole.Console.Run | os/init/init.c:1053-1134 | after any sequence of draws and log lines the mapped header bytes are those of a full repaint of the last texts, where nothing spills into the header, and the log lines that are still there are readable in memory |
| Framing.SplitUnlines | crates/model-provider/src/lib.rs:401-406 | splitting returns exactly the delimiter-free lines and rest that a text was joined from |
| Framing.Rejoin | crates/model-provider/src/lib.rs:401-406 | lines and rest hold no delimiter and join to the text again |
| Framing.LinesAcross | crates/console-web/src/main.rs:474-476 | the lines of two chunks are those of the first, then those of its rest followed by the second |
| Framing.TrimSplit | crates/console-web/src/main.rs:478 | trim takes off the longest run of white space at either end |
| Framing.TrimOf | crates/model-provider/src/lib.rs:407-411 | white space around a bare text is what trim takes off |
| ModelStream.CutsDoNotMatter | crates/model-provider/src/lib.rs:392-452 | for every way of cutting the response, text, deltas sent, tool accumulator and line buffer are those of one pass over the whole |
| ModelStream.EventLine | crates/model-provider/src/lib.rs:403-416 | the text of a data field reaches the parser as it is, whatever white space stands around it and the field name, with or without a carriage return; the end marker does not |
| ModelStream.OtherLine | crates/model-provider/src/lib.rs:407-410 | a line that trimmed does not start with the field name adds nothing |
| ModelStream.AddFragmentsMeans | crates/model-provider/src/lib.rs:431-449 | the accumulator reaches the highest index seen; slot k has the last non-empty name and all argument pieces of index k in stream order |
| ModelStream.StreamMeans | crates/model-provider/src/lib.rs:392-452 | the deltas sent are the non-empty contents in stream order and concatenate to the text; each tool call is assembled from its own fragments |
| ModelStream.ResponseMeans | crates/model-provider/src/lib.rs:392-452 | for a response of event lines and others, cut anywhere, the deltas sent are the contents of what its fields parse to, in order, and each tool call is assembled from theirs |
| ModelStream.AnswerMeans | crates/model-provider/src/lib.rs:452-474 | the answer has one call for each index that got a name and no others, in order of index, with what all argument pieces of that index in stream order parse to, or an empty object |
| ModelStream.SseReader.TakeCall | crates/model-provider/src/lib.rs:433-448 | the accumulator is extended to the index, then the slot takes name and arguments |
| ModelStream.SseReader.TakeCalls | crates/model-provider/src/lib.rs:431-449 | the fragments of one delta are taken in order |
| ModelStream.SseReader.TakeLine | crates/model-provider/src/lib.rs:403-451 | blank lines, other fields, the end marker and unparsable data change nothing; other lines add their delta |
| ModelStream.SseReader.TakeChunk | crates/model-provider/src/lib.rs:398-452 | all lines completed by the chunk are taken, and the unfinished one is kept |
| ModelStream.SseReader.Complete | crates/model-provider/src/lib.rs:392-474 | the answer is that of one pass over the whole response, with one call per named slot, a fresh id and parsed arguments; a read error loses it, but not what was sent; ResponseMeans and AnswerMeans say what that pass yields |
| WebForward.SessionIsLast | crates/console-web/src/main.rs:483-491 | the session after some frames is that of the last done frame with a valid one, or the old one when there is none |
| WebForward.FrameOfLine | crates/console-web/src/main.rs:476-482 | a line makes a frame if and only if it is not blank, and the frame is the decoded line without the white space around it |
| WebForward.FrameOfTail | crates/console-web/src/main.rs:499-505 | so does an unterminated last line |
| WebForward.Forwarder.TakeLine | crates/console-web/src/main.rs:476-496 | a blank line changes nothing; a frame is sent trimmed with one newline, after its session was stored; a closed browser ends the loop |
| WebForward.Forwarder.TakeLines | crates/console-web/src/main.rs:475-497 | every complete line of the buffer is taken in order and the rest stays |
| WebForward.Forwarder.Forward | crates/console-web/src/main.rs:466-511 | for every cut of the stream the browser gets exactly the non-blank trimmed lines, the unterminated last one included, or the first of them if it leaves; an empty stream is an error; the session follows the terminated done frames |
| BootImage.Align | os/bootimg/bootimg.py:69-70 | the smallest multiple of the page size that is not below the length; nothing exactly for nothing |
| BootImage.PackHeaderLayout | os/bootimg/bootimg.py:107-131 | the header page holds magic, ten integers, the three cut strings and the version fields at their offsets |
| BootImage.HeaderNumbers | os/bootimg/bootimg.py:107-131 | which size, address and version stands at which offset of the page |
| BootImage.HeaderComesBack | os/bootimg/bootimg.py:19-66 | parse_header on a packed page with anything behind it returns the packed fields, sizes and NUL-free strings cut to their fields |
| BootImage.PackOkIff | os/bootimg/bootimg.py:94-147 | with a page that holds the header, pack succeeds exactly for ASCII strings, numbers that fit their fields, and an image no longer than the partition |
| BootImage.PackedTail | os/bootimg/bootimg.py:133-147 | a packed image starts with the magic; the marker, if asked for, follows the padded parts; from there on every byte is zero up to the partition size, or there is none |
| BootImage.PartsLie | os/bootimg/bootimg.py:73-91 | kernel, ramdisk, second, recovery and dtb lie behind the header page in this order, each at the start of a page |
| BootImage.RoundTrip | os/bootimg/bootimg.py:19-147 | parsing and splitting a packed image returns the packed parts if and only if the version carries them, with or without marker and padding; a non-empty recovery part starts at the recorded offset |
| BootImage.RepackIsFixedPoint | os/bootimg/bootimg.py:19-147 | for NUL-free strings of any length, packing what was read back gives the same image if and only if the version carries the parts |
| BootImage.UnpackThenPack | os/bootimg/bootimg.py:150-184 | going through the files of unpack and pack, into a directory that may hold an earlier dtb file, gives the same image if and only if there is no second-stage part, the version records no other recovery part or dtb than the files have, and the padded dtb file equals what follows the second-stage part |
| BootImage.UnpackThenPackAfresh | os/bootimg/bootimg.py:150-184 | in a directory without a dtb file, that is if and only if the version carries the parts and there is neither a second-stage nor a recovery part |
| BootImage.FillHeader | os/bootimg/bootimg.py:103-131 | the buffer filled in place is the specified header, with the same failures in the same order |
| BootImage.Pack | os/bootimg/bootimg.py:94-147 | header, padded parts, marker and padding, or the error for an image that is too long; PackedTail and PartsLie say what stands where |
| BootImage.SplitPayload | os/bootimg/bootimg.py:73-91 | walking through the image cuts the parts at their computed offsets |
| PcmPlay.SourceIndexInRange | os/init/play.c:219-237 | for every length and rate, even when the output count was truncated to 32 bits, the source index of every output frame is in range without the clamp |
| PcmPlay.CountIsCut | os/init/play.c:219-221 | the output count is the rounded number of frames, or one, exactly below 2^32, and smaller than it from there on |
| PcmPlay.CountIsNearest | os/init/play.c:219 | the rounded count times the source rate is within half a source rate of the source frames times 48000 |
| PcmPlay.MixIsBetween | os/init/play.c:247-248 | products and sum fit a signed 32-bit int, and the truncated quotient lies between the two neighbours |
| PcmPlay.MixIsTowardsZero | os/init/play.c:247-248 | the stored sample is the weighted sum over 48000, rounded towards zero |
| PcmPlay.OutputIsInterpolated | os/init/play.c:227-250 | a frame is the one stored if and only if on each side it is that mean of the two neighbouring samples of the side, with mono on both sides and the last frame its own neighbour |
| PcmPlay.Resample | os/init/play.c:219-251 | the buffer has room for the rounded number of frames; turn i of the loop stores the frame interpolated at i * src_rate / 48000, with the last source frame held, where the 32-bit index i * 2 leads, so each position holds the last turn that reached it, and every stored frame is interpolated in the sense of OutputIsInterpolated |
| PcmPlay.BufferHoldsAll | os/init/play.c:219-251 | whatever is played, the buffer holds every frame that the file makes at the output rate, in order, if and only if there are at most 2^31 of them before the count is cut to 32 bits |
| PcmPlay.FirstFrameOverwritten | os/init/play.c:219-251 | 44740 mono frames at 1 Hz pass the checks, and the last source frame takes the place of the first |
| PcmPlay.EndOfFileDropped | os/init/play.c:219-221 | 89479 mono frames at 1 Hz make 4294992000 frames, of which the count keeps 24704 |
| PcmPlay.MixFrame | os/init/play.c:228-248 | one turn of the loop, clamps and casts included, gives the interpolated frame: none of them changes a value |
| PcmPlay.MixSample | os/init/play.c:247-248 | the 32-bit and 16-bit casts around the interpolation change nothing; MixIsTowardsZero says what it is |
| PcmPlay.ExactFrames | os/init/play.c:227-250 | when the source rate divides 48000 and the output has at most 2^31 frames, the stored buffer has source frame k at k * 48000 / src_rate unchanged, on both sides |
| PcmPlay.NoFrameLost | os/init/play.c:219-251 | when the source rate divides 48000, every source frame is where it belongs in the stored buffer, whatever is played, if and only if the exact output count is at most 2^31 |
| PcmPlay.OneMoreCall | os/init/play.c:281-291 | a device has stalled three times in a row exactly when a stall follows two at the end |
| PcmPlay.OnceAndInOrderIff | os/init/play.c:266-296 | whatever is played on whatever device, taking every frame means playing all of them once and in order if and only if there are at most 2^31 |
| PcmPlay.WritePcm | os/init/play.c:266-296 | for any device that takes at most what it is offered: it succeeds exactly when every frame was taken and fails exactly after three stalls in a row, with at most three calls a frame; what was played is what the wrapping offsets offered, a prefix of the input up to 2^31 frames |
| PcmPlay.PlaysTheFile | os/init/play.c:219-296 | whatever file is played on whatever device, when every frame offered was taken the device got, frame by frame, the interpolated frames of the whole file in order if and only if there are at most 2^31 |
| WavScan.Scan | os/init/play.c:158-184 | a file without RIFF/WAVE is refused; otherwise the loop computes the chunk scan, a bad fmt chunk ending it |
| WavScan.ScanSeesAll | os/init/play.c:162-184 | in any chunk list every chunk is seen once and odd ones are skipped with their padding; the file is refused if and only if a fmt chunk is not of 16 to 40 bytes |
| WavScan.LastChunksCount | os/init/play.c:162-184 | the last fmt and the last data chunk count, and the recorded offset is where that data lies |
| WavScan.CheckedIsPlayable | os/init/play.c:185-207 | a file that passes the checks, with two bytes per channel and frame, satisfies what the resampler needs |
| WavScan.AcceptedFiles | os/init/play.c:158-207 | a file of well-formed chunks is accepted if and only if its last fmt chunk says PCM, one or two channels of 16 bits, a rate and a block size, at their offsets, and its last data chunk has a block at least and eight megabytes at most; the frame count is the number of blocks |
| FindKey.SearchFrom | os/init/touchlab.c:82-96 | for a key that is safe to skip the search returns just past the first occurrence that starts a token, or nothing when there is none |
| FindKey.StrStr | os/init/touchlab.c:89 | the first occurrence from a position on, or none |
| FindKey.TrapFools | os/init/touchlab.c:82-96 | for any other key there is a buffer on which skipping misses the first hit |
| FindKey.SkippingIsSafeIff | os/init/touchlab.c:82-96 | the search is right on every buffer if and only if the key has no border after a gap |
| FindKey.TokensAreSkipSafe | os/init/touchlab.c:82-96 | keys without white space are safe to skip |
| FindKey.FindKey | os/init/touchlab.c:82-96 | the loop computes the search and ends; an empty key is found at once |
| Jpeg.JpegInfo | os/param/up_param.py:99-134 | the loop ends on every input and computes the scan, with its three failures |
| Jpeg.FirstFrameDecides | os/param/up_param.py:99-134 | after SOI and any well-formed other segments without fill bytes the first frame header gives width, height and component count, whatever follows |
| Jpeg.SmallFile | os/param/up_param.py:99-134 | a file byte by byte, and its width, height and component count |
| Jpeg.TornFile | os/param/up_param.py:99-134 | bytes between segments are passed over, and a frame header broken off by the end of the file is found and cannot be read |
| Jpeg.FillBytesMislead | os/param/up_param.py:99-134 | with n fill bytes before it the first frame header is found, for every legal frame and whatever follows, if and only if n is a multiple of 65537; none is the case that occurs |
| Conversation.TrimMessages | crates/ai-runtime/src/conversation.rs:68-82 | draining and removing in place computes the trimmed list |
| Conversation.TrimKeeps | crates/ai-runtime/src/conversation.rs:68-82 | what is kept is a suffix of at most max messages that does not start with a tool result if anything was dropped |
| Conversation.TrimAgain | crates/ai-runtime/src/conversation.rs:68-82 | trimming a trimmed history with new messages equals trimming everything, except exactly when the history was trimmed to nothing and a short addition starts with a tool result |
| Conversation.HistoryIsRecent | crates/ai-runtime/src/conversation.rs:32-51 | over any session the store holds at most max messages, a suffix of the transcript since the last reset |
| Conversation.HistoryIsTrimmedTranscript | crates/ai-runtime/src/conversation.rs:32-51 | without the exceptional case the store is the trimmed transcript, and the first occurrence of that case breaks it |
| Conversation.TranscriptTells | crates/ai-runtime/src/conversation.rs:32-59 | a turn adds its messages to the transcript, a confirmation its one message, and a reset leaves nothing |
| Conversation.ConversationStore.Save | crates/ai-runtime/src/conversation.rs:32-42 | the session gets the trimmed messages or is removed when none are left; other sessions stay |
| Conversation.ConversationStore.Append | crates/ai-runtime/src/conversation.rs:44-51 | the session gets the trimmed history with the message; other sessions stay |
| Conversation.ConversationStore.ResetSession | crates/ai-runtime/src/conversation.rs:53-59 | the session is gone, others stay, and the answer says whether it was there |
| Conversation.ConversationStore.RunSession | crates/ai-runtime/src/conversation.rs:32-59 | a session of turns, confirmations and resets leaves the recent suffix of its transcript and no trace elsewhere |
| Policy.GrantsNeverTouchDenial | crates/policy-engine/src/lib.rs:25-74 | which calls are denied depends on tool and arguments alone; grants only turn questions into permissions; a question is asked exactly for ungranted tools of high risk or with confirmation |
| Policy.DeniedCalls | crates/policy-engine/src/lib.rs:25-60 | tool by tool, which arguments no grant and no confirmation permits |
| Policy.ContainsIffWithin | crates/policy-engine/src/lib.rs:149-155 | the search for a suspicious text finds it exactly when it is a part of the arguments |
| Policy.KillSparesInit | crates/system-tools/src/lib.rs:643-655 | a kill the policy lets through never signals process 0, 1 or the runtime; ids that become 0 or 1 when narrowed to 32 bits are refused by the tool |
| Policy.SignalledIff | crates/system-tools/src/lib.rs:632-655 | a process is signalled if and only if it exists, has the lower 32 bits of the id, is neither 0, 1 nor the runtime, and the signal is one of seven or left out |
| Policy.NamedProcessIff | crates/system-tools/src/lib.rs:917-926 | what is signalled is the process that was named if and only if its id fits 32 bits |
| Policy.AnotherProcessSignalled | crates/system-tools/src/lib.rs:917-926 | id 4294967396 is not denied, and process 100 is signalled |
| Policy.PolicyEngine.DecideCall | crates/policy-engine/src/lib.rs:25-74 | the decision under the current grants, a denial exactly for the denied calls |
| Policy.PolicyEngine.ClearSessionGrants | crates/policy-engine/src/lib.rs:100-104 | no grant is left |
| Policy.PolicyEngine.GrantSession | crates/policy-engine/src/lib.rs:76-80 | the tool is added to the grants and nothing else changes |
| Audit.EventsDoNotMatter | crates/audit-log/src/lib.rs:99-255 | event records anywhere in the chain add steps of their own to the replay report and change nothing else in it |
| Audit.SideEffectCount | crates/audit-log/src/lib.rs:120-156 | the side effects avoided number the dangerous calls plus the ask_user verdicts |
| Audit.SideEffectsName | crates/audit-log/src/lib.rs:120-156 | each dangerous call is listed with tool and arguments, each question with its tool |
| Audit.PendingIsLastQuestion | crates/audit-log/src/lib.rs:182-194 | the report has the open question of the last request in the chain, and none without one |
| Audit.SummaryIsLastDiagnosis | crates/audit-log/src/lib.rs:208-237 | its summary is the last diagnosis or, when there is none, the first text of the assistant |
| Audit.StepsTellTheLog | crates/audit-log/src/lib.rs:110-244 | the report has one step per record, in log order, with its kind and description; the steps with a side effect are the dangerous calls |
| Audit.AuditLog.ListByCorrelation | crates/audit-log/src/lib.rs:75-81 | the records of the correlation id, in log order |
| Audit.AuditLog.Append | crates/audit-log/src/lib.rs:66-73 | the record goes to the end of the log |
| Audit.AuditLog.ReplayLog | crates/audit-log/src/lib.rs:99-255 | the loop computes the report of the id's records, steps included, and fails exactly when there are none |
| AgentRun.StepLog | crates/ai-runtime/src/lib.rs:239-500 | every step keeps: each record cites the record before it, or the decision before a denied result; the events mirror the log; the tools executed are those the log allows, in order; replay has nothing pending before the end |
| AgentRun.StepShape | crates/ai-runtime/src/lib.rs:239-549 | every step keeps the log in blocks of an optional message and linked triples of call, decision and result |
| AgentRun.StepAppends | crates/ai-runtime/src/lib.rs:197-549 | a step appends one record at most, changes none, and executes one tool at most, the one just allowed |
| AgentRun.EventsCarryTheLog | crates/ai-runtime/src/lib.rs:239-549 | each record of a run has its event, with the same call, tool, verdict, result, question or diagnosis |
| AgentLoop.HandleCall | crates/ai-runtime/src/lib.rs:301-499 | one tool call takes the machine's steps from proposal to result, seeing at each the grants and the tool's answer of that moment, and ends the run exactly when it asks the user or the tool fails |
| AgentLoop.HandleUserText | crates/ai-runtime/src/lib.rs:239-549 | the nested loops take only steps of the machine, each with the reply, grants or tool answer of its moment, and end; a run that ends well has the log shape, causes, events and executions of an Ok run |
| Runtime.InvAfter | crates/ai-runtime/src/lib.rs:197-658 | in every interleaving all runs and confirmations keep their invariants and nobody writes into another's part of the log |
| Runtime.EveryExecutionIsAuthorized | crates/ai-runtime/src/lib.rs:590-650 | in every interleaving each executed tool is registered, not denied, and allowed either by a logged decision that directly follows, names and cites the logged proposal of that call with those arguments, or by a confirmation of its call id that is no cancel, which executes just that once; no kill reaches process 0 or 1; VerdictsFollowPolicy says that such a decision was right |
| Verdicts.RunDecisionIsRight | crates/ai-runtime/src/lib.rs:328-354 | a call is refused if and only if its tool is unknown or its arguments are denied, and taken to the user if and only if it is neither and the tool is risky and not granted |
| Verdicts.VerdictsFollowPolicy | crates/ai-runtime/src/lib.rs:328-372 | in every interleaving each decision in the log of a run directly follows and cites the proposal of its call, and is the right one under the grants in force when it was written |
| Verdicts.GrantedIff | crates/policy-engine/src/lib.rs:76-104 | in every interleaving a tool is granted if and only if some Session confirmation of it took its grant and nobody cleared the grants since |
| Verdicts.GrantIsConfirmed | crates/ai-runtime/src/lib.rs:590-625 | who gives a grant has the Session response of its call in the log by then |
| Verdicts.RiskyRunsWereGranted | crates/ai-runtime/src/lib.rs:328-499 | what a run executes of a tool of high or critical risk, or with confirmation, was decided after a Session confirmation of that tool took its grant, with no clearing of grants in between |
| Runtime.EachDecisionExecutesOnce | crates/ai-runtime/src/lib.rs:301-499 | however a run ends, its executions are those of its first allow decisions, one for each, in log order |
| Runtime.OkRunLog | crates/ai-runtime/src/lib.rs:197-549 | the log of every Ok run is the request, at most max_tool_iters blocks, and a diagnosis or an open question, the latter exactly when a confirmation is pending; a diagnosis comes only after a block without calls or when the blocks are used up; causes and returned events fit it |
| Answers.RequestIsLogged | crates/ai-runtime/src/lib.rs:197-213 | a new run logs the text of its request as the root of its chain |
| Answers.EventIsLogged | crates/automation-engine/src/lib.rs:248-255 | an automation event is logged under the chain it answers to, with its cause |
| Answers.RunLogsReplies | crates/ai-runtime/src/lib.rs:239-326 | in every interleaving the log of a run has the texts of the replies it took, and proposes their calls one after the other in the order of the model |
| Answers.ResultIsTheTools | crates/ai-runtime/src/lib.rs:455-499 | an allowed call runs once, and the log gets what its tool answered |
| Answers.QuestionIsAsked | crates/ai-runtime/src/lib.rs:413-454 | a call that goes to the user is not run, and the log gets the question with tool and arguments |
| Answers.ConfirmedResultIsTheTools | crates/ai-runtime/src/lib.rs:626-650 | a confirmed call runs once, and the log gets what its tool answered, caused by the response |
| Answers.CompletedRunAnswers | crates/ai-runtime/src/lib.rs:507-549 | a completed run answers with the last text of the model if that is not empty; otherwise with the busiest process of the last list that had one, if metrics and processes were looked at, or the sentence for finding none, or for not finishing; every proposed call was taken up |
| Runtime.AloneUntilConfirm | crates/ai-runtime/src/lib.rs:590-606 | over any actions without a confirmation of a call of the run, nobody but the run and automation events writes under its correlation id |
| Runtime.ReplayTellsTheRun | crates/audit-log/src/lib.rs:99-255 | as long as no confirmation of one of its calls has started, replaying the id of a run, with events anywhere between, reports its diagnosis and nothing pending, or its open question, and one side effect per dangerous call and question |
| ConfirmLoop.ConfirmedIsARun | crates/ai-runtime/src/lib.rs:590-650 | a confirmation with nothing in between is four actions of the interleaved system |
| ConfirmLoop.ConfirmInSession | crates/ai-runtime/src/lib.rs:590-650 | on policy engine and audit log it leaves the grants and the log of those actions, and reports a result or a failed tool exactly when the tool was called, which is permitted then |
| Confirmations.ConfirmationsAnswerQuestions | crates/ai-runtime/src/lib.rs:590-650 | however started confirmations go on, they execute only calls that a run asked about, with the same id, tool and arguments, and each question once, if and only if every one that is no cancel and can run named, as it started, a question in the log that no other such one had named |
| Confirmations.NobodyAsked | crates/ai-runtime/src/lib.rs:590-650 | for any call that is neither denied nor malformed, two confirmations without any run execute it twice |
| Automation.MarksAreGapped | crates/automation-engine/src/lib.rs:362-377 | on a clock that does not go back, the recorded times of a rule are a cooldown apart |
| Automation.RateIsBounded | crates/automation-engine/src/lib.rs:192-216 | in any window of length W a rule fires at most W / cooldown + 1 times |
| Automation.AutomationEngine.InCooldown | crates/automation-engine/src/lib.rs:362-371 | a rule is cooling exactly when it has fired and less than its cooldown has passed at the reading taken |
| Automation.AutomationEngine.Evaluate | crates/automation-engine/src/lib.rs:192-213 | the rules that fire are enabled and match, each once; every other enabled rule that matches was found cooling at a reading taken meanwhile; those that fire have their cooldown over |
| Automation.DueFires | crates/automation-engine/src/lib.rs:192-213 | on a clock that does not go back, an enabled rule that matches fires if it never fired, or its last firing is a full cooldown ago or more when the evaluation starts |
| Automation.FiresFrom | crates/automation-engine/src/lib.rs:342-359 | a threshold rule fires on the successful result of its tool if and only if the field is there and not below the bound |
| Automation.OwnEventsAre | crates/automation-engine/src/lib.rs:305-311 | the worker passes over the events whose name starts with Automation, and no others |
| Automation.AutomationEngine.MarkFired | crates/automation-engine/src/lib.rs:373-377 | the firing is recorded with a new reading, and the history stays spaced for any clock |
| Automation.AutomationEngine.Handle | crates/automation-engine/src/lib.rs:303-314 | nothing is recorded for the engine's own events; for others exactly the firings of one evaluation are, in order, each with a reading of its own |
| Automation.AutomationEngine.Work | crates/automation-engine/src/lib.rs:298-324 | the firings recorded over any envelopes are those of the envelopes one after the other, each under the times recorded before; every check of a rule comes a cooldown after its last recorded firing, and on a clock that does not go back the rate bound holds for every rule and window |
| MemoryStore.LogRefinesMap | crates/memory-store/src/lib.rs:72-154 | after any remembers and forgets the compact view of the log is a map updated directly by the same operations |
| MemoryStore.ForgetHitsLiveKeys | crates/memory-store/src/lib.rs:143-154 | the live keys are those of the reference map, and a forgotten key is gone |
| MemoryStore.Store.RememberFact | crates/memory-store/src/lib.rs:72-81 | the fact is appended with a missing id and time filled in |
| MemoryStore.Store.LatestByKey | crates/memory-store/src/lib.rs:108-116 | every live fact once, newest first, whatever order the map gives them in |
| MemoryStore.Store.ListRecent | crates/memory-store/src/lib.rs:118-124 | at most limit live facts, each once, newest first; none left out is newer than one returned |
| MemoryStore.Store.ForgetKey | crates/memory-store/src/lib.rs:143-154 | exactly for a live key the tombstone of its fact is appended and returned, and the key is not live afterwards |
| AbSlots.BootOkMeans | deploy/ab/boot-ok.sh:55-63 | over any run of the scripts a slot has BOOT_OK if and only if a health check passed while it was current and it was neither installed into nor switched to since |
| AbSlots.MarkerTellsWhen | deploy/ab/boot-ok.sh:58 | the text of a marker is the time of the last health check that the slot passed |
| AbSlots.LinkAndFileAgree | deploy/ab/switch.sh:29-32 | over any run the link and the slot file name the same slot |
| AbSlots.CurrentHasBinary | deploy/ab/switch.sh:16-32 | over any run a slot that was switched to has a binary while it is current; before any switch the current one is A |
| AbSlots.LayoutKeepsState | deploy/ab/layout.sh:8-22 | on a root that is laid out the script changes nothing; on a fresh one it makes A current, with no marker anywhere |
| AbSlots.LeftSlotStaysGood | deploy/ab/switch.sh:21-27 | a slot left without --force keeps BOOT_OK until it is installed into or switched to again |
| AbSlots.AbRoot.RunLayout | deploy/ab/layout.sh:8-19 | directories are there, and a missing link or slot file names A |
| AbSlots.AbRoot.RunInstall | deploy/ab/install-slot.sh:11-30 | refused without layout or binary; otherwise the slot has a binary and no BOOT_OK |
| AbSlots.AbRoot.RunSwitch | deploy/ab/switch.sh:11-32 | refused without binary, or without --force when the other slot in use has no BOOT_OK; otherwise link and file name the slot, without BOOT_OK |
| AbSlots.AbRoot.RunBootOk | deploy/ab/boot-ok.sh:11-66 | the current slot is marked exactly when some answer before the deadline is good |
| AbSlots.AbRoot.ReadStatus | services/saaios-runtime/src/ab_status.rs:29-92 | without a root nothing is enabled; otherwise the root, the current slot, and one entry per slot with its activity, binary, marker and the trimmed text of the marker |
| AbSlots.AbRoot.RunAll | deploy/ab/switch.sh:11-32 | any sequence of the scripts on an empty root ends in the state that the transition system gives, with link and file in agreement and BOOT_OK as characterised |

## Left out

- HeaderStaysPainted: panels of fewer than 24 lines, where the unsigned `yres - 24` wraps and the log runs off the panel; panels of 2^31 or more columns or lines; more than 32 bits per pixel; and panels of at most 24 columns whose stores are not confined, where text reaches the last column.
- Run: starts from the state that setup_fb leaves; the early returns for a missing framebuffer, kmsg output and the reading of battery, backlight, network and audio are parameters.
- MappingHoldsStores: bytes that the kernel maps behind the requested length, up to the end of a page, do not count as mapped.
- Complete: chunks are decoded text, so cuts inside a multi-byte character are not modelled; JSON values are their text.
- RoundTrip: header pages too small for their header, on which pack either fails or overruns the page; header versions above 2 are treated as 2, as the code does.
- HeaderComesBack: strings that contain NUL come back cut at it.
- Resample: WAV files whose block size is not two bytes per channel; allocation failures; the byte order of the samples in the file.
- WritePcm: the mixer call after a stall, and the opening and closing of the device.
- FirstFrameDecides: fill bytes before segments other than the frame header, where the scan jumps in the same way.
- JpegInfo: error texts; EXIF and splash editing in the same script.
- AgentRun.Step: the locals of a run are a value that each step replaces, since other requests, confirmations and grant changes come in between the awaits of the loop; confirm_in_session is modelled in the same way, and besides as one method on the mutable policy engine and log; what it adds to a conversation is the subject of Conversation; the bus, progress frames, spans, the memory context in the prompt and the culprit that is filled in for an asked run are not modelled, and neither is the limit on concurrent requests.
- OkRunLog: runs that end in an error or a timeout; their log is the part written so far, for which StepLog and StepShape hold.
- EveryExecutionIsAuthorized: tools other than kill are opaque, and the mock backend has the same guard on process ids only.
- ReplayTellsTheRun: chains that contain a confirmation response.
- RunSession: turns and confirmations of one session that overlap in time.
- Work: two workers on one engine, rules that share an id, and cooldowns that do not fit a 64-bit number of seconds; actions and their payloads; numeric fields are reals, so NaN is not modelled.
- LatestByKey: reading and parsing of the file; recall's substring filter.
- RunAll: a script that is interrupted, a root that something else writes to, the restart of the service, and whether the process that answers the ping is the slot's binary.
- FindKey: copy_tok and the number parsers that use its result; the separate find_key of init.c, which does not look at token starts.
- Decide: the wording of the reasons is part of the model but no result speaks of it.
- decide_named, session_grants and has_session_grant of the policy engine, reset of all sessions, the fallback provider chain, configuration, telemetry, the terminal and browser interfaces, packaging, vbmeta flags, USB and kernel patches are not part of this model.
