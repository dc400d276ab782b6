# Police-scanner audio pipeline: segmentation, WAV encoding and transcription queues

This project is a Dafny model of the logic at the heart of the scanner. The scanner listens to a radio stream and cuts it into utterances. It writes each utterance as a WAV file and hands the files one at a time to a speech recogniser. The recogniser's text is cleaned and emitted as `transcription` events.

The model has three parts.

* **Stream handler** (`segmentation.dfy`, `rms.dfy`, `wav.dfy`, `bytes.dfy`).
  * An energy-based voice-activity state machine. A chunk of mono 16 kHz signed 16-bit PCM counts as *loud* when its RMS exceeds 300.
  * Loud chunks are buffered. Quiet chunks are buffered only while someone is speaking.
  * Once the trailing silence outlasts the configured duration, the buffer is flushed as one segment.
  * A segment shorter than `minDuration` seconds (32000 bytes per second) is dropped. A kept segment is written behind a canonical 44-byte RIFF/WAVE PCM header.
  * A reconnect guard keeps at most one reconnect timer pending.
  * The state machine is a class (`Segmentation.StreamHandler`) whose fields the methods update. Each method is proved against a pure transition function (`Segmentation.Ingest`, `Segmentation.Flush`). The lemmas are about those functions.
  * The RMS loop and the header writer are methods over sequences and an array, each proved against a specification function.
* **Current transcription queue** (`transcription.dfy`, with the JavaScript string operations in `jstext.dfy`).
  * A FIFO of segment paths, with one recogniser process in flight at a time.
  * Heads that are empty or missing on disk are skipped.
  * The finished segment file is always deleted.
  * The output is cleaned in three steps: timestamp ranges `[hh:mm:ss.mmm --> hh:mm:ss.mmm]` are removed, white-space runs collapse to one space, and the ends are trimmed.
  * Exit code 0 and non-zero exit codes are treated alike. Only a failed launch rejects.
* **Legacy transcription queue** (`legacy_transcription.dfy`). The older compiled queue around the recogniser library.
  * It has the same FIFO structure, but no existence check and no deletion.
  * It uses a different cleaner, which removes the shortest `[...]` on one line and then trims.
  * An empty path marks the queue busy and nothing ever clears that mark.

The asynchronous `processQueue` of both queues is split in two:

* `ProcessQueue` is the synchronous part, up to the awaited recogniser call. The path being awaited is kept in a field `inFlight`.
* `Complete` is the continuation that runs once that call settles.

Ghost histories `enqueued` and `dequeued`, with `enqueued == dequeued + queue`, state the FIFO order.

Things outside the model are passed in as parameters:

* the clock (milliseconds);
* the set of files that exist;
* the recogniser's outcome.

## Model

| member | source | states |
|---|---|---|
| Bytes.ReadInt16LE | dist/core/stream-handler.js:99 | a little-endian int16 read lies in [-32768, 32767] and is negative exactly when the top bit of the high byte is set |
| Bytes.Int16RoundTrip | dist/core/stream-handler.js:99 | reading an int16 back from its two's-complement little-endian bytes gives the same value, for every int16 |
| Bytes.UInt16RoundTrip | dist/core/stream-handler.js:138-143 | a u16 written little-endian reads back unchanged |
| Bytes.UInt32RoundTrip | dist/core/stream-handler.js:133-146 | a u32 written little-endian reads back unchanged |
| Bytes.AsciiRoundTrip | dist/core/stream-handler.js:132-145 | a chunk tag written one byte per character reads back as the same text |
| Wav.WavHeader | dist/core/stream-handler.js:130-146 | the header is exactly 44 bytes |
| Wav.HeaderFields | dist/core/stream-handler.js:132-146 | "RIFF" at 0, `36 + n` at 4, "WAVE" at 8, "fmt " at 12, 16 at 16, PCM format 1 at 20, channels at 22, sample rate at 24, byte rate `sr*ch*2` at 28, block align `ch*2` at 32, 16 bits at 34, "data" at 36, `n` at 40 |
| Wav.WavFile | dist/core/stream-handler.js:129-149 | a file exists exactly when every header field fits its width; it is `44 + n` bytes and from offset 44 it is the samples unchanged |
| Wav.WriteBytes | dist/core/stream-handler.js:132-147 | the bytes land at the offset, and the rest of the buffer is unchanged |
| Wav.WriteUInt16LE | dist/core/stream-handler.js:138-143 | succeeds exactly when the value fits 16 bits and then stores its little-endian bytes at the offset, keeping every other byte; on the RangeError the whole buffer is unchanged |
| Wav.WriteUInt32LE | dist/core/stream-handler.js:133-146 | succeeds exactly when the value fits 32 bits and then stores its little-endian bytes at the offset, keeping every other byte; on the RangeError the whole buffer is unchanged |
| Wav.WriteRiffDescriptor | dist/core/stream-handler.js:132-134 | succeeds exactly when `36 + n` fits 32 bits; then bytes 0-11 are "RIFF", `36 + n` and "WAVE", and the rest of the buffer is unchanged |
| Wav.WriteFmtHead | dist/core/stream-handler.js:136-139 | succeeds exactly when the channel count fits 16 bits; then bytes 12-23 are "fmt ", 16, format 1 and the channel count, and bytes from 24 on are unchanged |
| Wav.WriteFmtRates | dist/core/stream-handler.js:140-143 | succeeds exactly when the sample rate, byte rate and block align fit their widths; then bytes 24-35 are those fields and 16 bits per sample, and bytes from 36 on are unchanged |
| Wav.WriteFmtChunk | dist/core/stream-handler.js:136-143 | succeeds exactly when every `fmt ` field fits; then bytes 12-35 are the whole `fmt ` chunk, and bytes from 36 on are unchanged |
| Wav.WriteDataChunkHeader | dist/core/stream-handler.js:145-146 | bytes 36-43 become "data" and `n`, and the samples from 44 on are unchanged |
| Wav.AddWavHeader | dist/core/stream-handler.js:129-149 | fails exactly when some header write raises a RangeError; otherwise the filled buffer is the header followed by the samples |
| Rms.CalculateRMS | dist/core/stream-handler.js:95-104 | fails (RangeError) exactly on an odd-length chunk; otherwise yields the sum of squares of every little-endian int16 sample and a sample count of half the length |
| Rms.RmsThreshold | dist/core/stream-handler.js:70-71 | for a non-negative real `rms` with `rms² = sum/n`, `rms > 300` holds exactly when `sum > 300²·n` |
| Rms.RootThreshold | dist/core/stream-handler.js:70-71 | for a non-negative real whose square is `total/n`, it exceeds 300 exactly when `total > 90000·n` |
| Rms.CastThreshold | dist/core/stream-handler.js:70-71 | comparing the sum with `90000·n` gives the same answer over reals as over integers |
| Rms.SumSquaresOfEncoded | dist/core/stream-handler.js:98-101 | the sum over a chunk encoding samples `xs` is the sum of the squares of `xs` |
| Rms.SquareAboveThreshold | dist/core/stream-handler.js:70-71 | a sample's square exceeds 300² exactly when its magnitude exceeds 300 |
| Rms.ConstantAmplitude | dist/core/stream-handler.js:95-104 | a chunk of one repeated amplitude `a` is loud exactly when it is non-empty and `abs(a) > 300` |
| Rms.SilenceIsQuiet | dist/core/stream-handler.js:95-104 | an all-zero chunk has sum 0 and is never loud, the empty chunk (0/0, NaN) included |
| Segmentation.ConcatLength | dist/core/stream-handler.js:108-115 | the left-fold total of chunk lengths equals the length of their concatenation |
| Segmentation.ConcatSplit | dist/core/stream-handler.js:115 | concatenating `a + b` is concatenating `a`, then `b` |
| Segmentation.Flush | dist/core/stream-handler.js:105-128 | nothing happens exactly when the buffer is empty; below `minDuration*32000` bytes the chunks are dropped; otherwise one segment stamped `now` whose bytes are the 16 kHz mono header followed by the in-order concatenation; a header that cannot be written means a length past 32 bits; conversely a non-empty buffer below the minimum is always dropped, and one at or above it whose header fits is always saved |
| Segmentation.Ingest | dist/core/stream-handler.js:63-94 | keeps `!speaking ⇒ buffer empty` and `silenceStart set ⇒ speaking`; RangeError exactly on odd length, with no change; loud ⇒ speaking, timer cleared, chunk at the tail; quiet while idle ⇒ nothing; quiet while speaking ⇒ chunk appended, silence start set once (a falsy 0 counts as unset) and kept, and a flush of the whole buffer exactly when the silence exceeds the limit, after which the state is idle again; a chunk that does not flush is buffered, appended at the tail, with the silence start set to the first quiet chunk's time |
| Segmentation.Run | dist/core/stream-handler.js:48-50 | one reaction per chunk, and the two invariants hold after any sequence of chunks |
| Segmentation.RunAppend | dist/core/stream-handler.js:48-50 | feeding `a` and then `b` is feeding `a + b` |
| Segmentation.QuietBuffered | dist/core/stream-handler.js:77-93 | while speaking, a quiet chunk within the silence limit is appended to the buffer and the silence start stays at the first quiet chunk's time |
| Segmentation.RunStep | dist/core/stream-handler.js:48-50 | feeding a sequence of chunks is ingesting the first one and then feeding the rest from the state it leaves |
| Segmentation.SpeechPhase | dist/core/stream-handler.js:71-76 | a run of loud chunks buffers each in order and leaves the silence timer cleared |
| Segmentation.PausePhase | dist/core/stream-handler.js:77-92 | quiet chunks within the silence limit are all buffered, and the timer stays at the first quiet chunk's time |
| Segmentation.SilenceLimitReached | dist/core/stream-handler.js:86-91 | the first quiet chunk past the limit flushes the buffer, itself included, as one segment and returns to idle |
| Segmentation.PauseThenFlush | dist/core/stream-handler.js:77-128 | while speaking, a pause whose last chunk alone passes the limit buffers every earlier quiet chunk and then saves one segment of the whole buffer, pause included, and returns to idle |
| Segmentation.UtteranceIsOneSegment | dist/core/stream-handler.js:63-128 | from idle, speech followed by a pause that outlasts the limit gives `Buffered` for every chunk but the last, then exactly one saved segment whose payload is every chunk in arrival order |
| Segmentation.StreamHandler.constructor | dist/core/stream-handler.js:13-22 | starts idle with an empty buffer and no timer |
| Segmentation.StreamHandler.ProcessAudioData | dist/core/stream-handler.js:63-94 | the new fields and the reaction are exactly `Ingest` of the old fields; the timer is untouched |
| Segmentation.StreamHandler.FlushBuffer | dist/core/stream-handler.js:105-128 | the outcome is `Flush` of the old buffer, and the buffer is empty afterwards whatever the outcome |
| Segmentation.StreamHandler.HandleDisconnect | dist/core/stream-handler.js:53-62 | with a timer pending nothing happens; otherwise one `disconnect` is emitted and one 5000 ms timer armed |
| Segmentation.StreamHandler.ReconnectTimerFired | dist/core/stream-handler.js:58-61 | the timer is cleared before the restart |
| Segmentation.DisconnectTwice | dist/core/stream-handler.js:53-62 | two disconnects in a row arm at most one timer and emit at most one `disconnect` |
| JsText.TrimStart | src/core/transcriber.ts:126 | the first character kept is not white space |
| JsText.TrimStartSuffix | src/core/transcriber.ts:126 | what the leading trim keeps is a suffix of the text, and everything in front of it is white space |
| JsText.TrimStartNonSpace | src/core/transcriber.ts:126 | the leading trim keeps every non-space character |
| JsText.TrimEnd | src/core/transcriber.ts:126 | the last character kept is not white space |
| JsText.TrimEndPrefix | src/core/transcriber.ts:126 | what the trailing trim keeps is a prefix of the text, and everything behind it is white space |
| JsText.TrimEndNonSpace | src/core/transcriber.ts:126 | the trailing trim keeps every non-space character |
| JsText.Trim | src/core/transcriber.ts:126 | no white space at either end, every non-space character kept, and the result is a slice of the input with only white space cut away on either side |
| JsText.CollapseSpaces | src/core/transcriber.ts:126 | a leading white-space character becomes a plain space, any other first character is kept |
| JsText.CollapseSpacesShape | src/core/transcriber.ts:126 | the result has only plain spaces, never two in a row, and the same non-space characters in order |
| JsText.CollapseSpacesSplit | src/core/transcriber.ts:126 | a white-space run between two stretches of text becomes exactly one space, and each stretch collapses on its own |
| JsText.CollapseWord | src/core/transcriber.ts:126 | a word without white space is left as it is |
| JsText.Normalize | src/core/transcriber.ts:126 | the result is collapsed and trimmed, with the same non-space characters |
| JsText.NormalizeSplit | src/core/transcriber.ts:126 | two stretches of text separated by white space clean to their own cleaned forms joined by exactly one space |
| JsText.NormalIsFixed | src/core/transcriber.ts:126 | a string already collapsed and trimmed is left as it is |
| JsText.NormalizeIdempotent | src/core/transcriber.ts:126 | collapsing and trimming twice is the same as once |
| JsText.NormalizePaddedWord | src/core/transcriber.ts:126 | a word with white space on either side comes out as the bare word |
| Transcription.StripTimestamps | src/core/transcriber.ts:124 | never lengthens the text, and the length drops by a multiple of 31, the length of one range (which characters go is stated by StripAroundRange and StripWithoutRange) |
| Transcription.StripWithoutBracket | src/core/transcriber.ts:124 | text with no `[` is left unchanged |
| Transcription.StripWithoutRange | src/core/transcriber.ts:124 | text in which no range starts anywhere is left unchanged |
| Transcription.StripAroundRange | src/core/transcriber.ts:124 | removing a range splits the text: what lies before it and what lies after it are stripped independently, with nothing in between |
| Transcription.BracketNotInRange | src/core/transcriber.ts:124 | a `[` past the first position rules out a range, so no range can run into the next one |
| Transcription.StripRemovesRange | src/core/transcriber.ts:124 | a range behind bracket-free text is removed, and the text before it is kept |
| Transcription.RemovalCanExposeRange | src/core/transcriber.ts:124 | one left-to-right pass: a range assembled around a removed one survives |
| Transcription.StripKeepsBeforeBracket | src/core/transcriber.ts:124 | the character before a `[` is never the start of a range, so it is kept |
| Transcription.RangeOfClocks | src/core/transcriber.ts:124 | any two `hh:mm:ss.mmm` readings in the frame `[from --> to]` make a range the removal matches |
| Transcription.ExampleRange | src/core/transcriber.ts:123-124 | `[00:00:00.000 --> 00:00:01.000]` is such a range |
| Transcription.CleanOutput | src/core/transcriber.ts:122-127 | the result is collapsed and trimmed, and keeps every non-space character that the range removal kept |
| Transcription.CleanWithoutRange | src/core/transcriber.ts:122-127 | output without ranges is only collapsed and trimmed |
| Transcription.CleanDropsRange | src/core/transcriber.ts:122-127 | a range in the output is dropped, and the text on either side of it is stripped on its own before collapsing and trimming |
| Transcription.RunWhisper | src/core/transcriber.ts:101-118 | resolves exactly when the process closed, with the cleaned stdout whatever the exit code; rejects only on a launch error |
| Transcription.ExitCodeIgnored | src/core/transcriber.ts:101-113 | two exit codes with the same stdout give the same result |
| Transcription.Emission | src/core/transcriber.ts:43-51 | an event exactly when the process closed and the cleaned output is not empty, carrying that text, the path and the time |
| Transcription.CleanPaddedOutput | src/core/transcriber.ts:122-127 | a range and a single word amid white space clean to the bare word |
| Transcription.NonZeroExitStillTranscribes | src/core/transcriber.ts:101-127 | whatever the exit code, stdout made of a range and one word amid white space emits exactly that word, with the path and the time |
| Transcription.DropUnusable | src/core/transcriber.ts:38-40 | what remains is a suffix of the queue; everything dropped is empty or missing, and the new head is usable |
| Transcription.Transcriber.constructor | src/core/transcriber.ts:9-10 | the queue is empty and idle |
| Transcription.Transcriber.AddToQueue | src/core/transcriber.ts:29-32 | the path joins the history at the tail; while busy it waits at the tail of the queue with nothing started; when idle it starts exactly when it is usable; the queue never waits while idle |
| Transcription.Transcriber.ProcessQueue | src/core/transcriber.ts:34-67 | a no-op while a run is awaited; otherwise unusable heads are dropped and the first usable one is started; afterwards a run is awaited or the queue is empty |
| Transcription.Transcriber.Complete | src/core/transcriber.ts:41-62 | for any outcome: the event is `Emission` of the awaited path, that file is removed from the file set, and the next usable path is started |
| Transcription.Transcriber.Resume | src/core/transcriber.ts:60-61 | the busy flag is cleared and `processQueue` runs again: the unusable heads are dropped and the first usable one, if any, is started; the history is unchanged |
| LegacyTranscription.FindClose | dist/core/transcriber.js:65 | finds the first `]` provided no line terminator precedes it; when it finds none, every `]` has a line terminator before it |
| LegacyTranscription.StripBrackets | dist/core/transcriber.js:65 | never lengthens the text |
| LegacyTranscription.StripWithoutPair | dist/core/transcriber.js:65 | text in which no `[` has a `]` after it on the same line is left unchanged, unclosed `[` included |
| LegacyTranscription.UnclosedBracketKept | dist/core/transcriber.js:65 | a `[` never closed, as in `a[b`, is kept together with what follows it |
| LegacyTranscription.FindCloseAppend | dist/core/transcriber.js:65 | the lazy match never reads past a line break, so text after one does not change where it stops |
| LegacyTranscription.StripBracketsLines | dist/core/transcriber.js:65 | an annotation never spans a line break: text up to a line break and the text after it are cleaned independently |
| LegacyTranscription.StripLeavesNoPair | dist/core/transcriber.js:65 | after the pass no `[` is followed on its own line by a `]` |
| LegacyTranscription.StripKeepsNoClose | dist/core/transcriber.js:65 | removal cannot bring a `]` forward past a line break |
| LegacyTranscription.NoBracketPairSlice | dist/core/transcriber.js:65 | a slice of pair-free text is pair-free |
| LegacyTranscription.TrimKeepsNoPair | dist/core/transcriber.js:65-66 | trimming pair-free text leaves it pair-free |
| LegacyTranscription.StripRemovesAnnotation | dist/core/transcriber.js:64-65 | an annotation such as `[SOUND]` behind bracket-free text is removed, and the text before it is kept |
| LegacyTranscription.StripWithoutBracket | dist/core/transcriber.js:65 | text with no `[` is left unchanged |
| LegacyTranscription.CleanText | dist/core/transcriber.js:63-67 | trimmed at both ends, with no bracketed pair left on any line, every non-space character that the removal kept, and exactly the removal's result with only white space cut from either end |
| LegacyTranscription.ResultText | dist/core/transcriber.js:37-39 | only a non-empty string or a non-empty array goes on to cleaning: the string itself, or the array's JSON text |
| LegacyTranscription.Emission | dist/core/transcriber.js:36-47 | an event exactly when the call resolved with a non-empty result whose cleaned text is not empty, carrying that cleaned text |
| LegacyTranscription.AnnotationOnlyEmitsNothing | dist/core/transcriber.js:37-47 | a result that is only an annotation, such as `[BLANK_AUDIO]`, emits nothing |
| LegacyTranscription.Transcriber.constructor | dist/core/transcriber.js:11-15 | the queue is empty, idle and not stalled |
| LegacyTranscription.Transcriber.AddToQueue | dist/core/transcriber.js:16-19 | the path joins at the tail; when idle it is taken at once and started unless it is empty; the queue is stalled afterwards exactly when it was already stalled or an empty path was taken while idle |
| LegacyTranscription.Transcriber.ProcessQueue | dist/core/transcriber.js:20-35 | a no-op when busy or empty; otherwise exactly the head is taken and the queue marked busy, and a call is started only for a non-empty path |
| LegacyTranscription.Transcriber.Complete | dist/core/transcriber.js:36-60 | for any outcome: the event is `Emission` of the awaited path, the busy mark is cleared and the next head is taken |
| LegacyTranscription.EmptyPathStallsQueue | dist/core/transcriber.js:16-25 | after an empty path while idle, a later path is queued and never started, and the queue stays stalled |

## Left out

- The ffmpeg decoding and the stream connection in `start` (dist/core/stream-handler.js:29-52) are foreign I/O. A chunk is a byte sequence argument, and a restart is the `Restart` effect.
- The clock is a parameter. `processAudioData` reads `Date.now()` twice and `flushBuffer` once (dist/core/stream-handler.js:81,83,118); the model assumes one reading per chunk.
- Writing the WAV file, its `chunk_<timestamp>.wav` name and the `audio-chunk` event (dist/core/stream-handler.js:119-127) are not modelled. The saved segment carries the timestamp and the bytes.
- `ensureDirs` and the `isRecording` and `command` fields of the stream handler are not modelled: they are file-system setup and unused state.
- Rms.CalculateRMS: returns the exact sum of squares and sample count in place of the floating-point `Math.sqrt(sum / sampleCount)`. Rms.RmsThreshold states the equivalence with the real square root. Rounding in doubles is not modelled. For chunks of fewer than 2^23 samples the sum is exact in doubles, and a mean square above 90000 exceeds it by at least 1/n, more than the rounding of the division and of the square root can take away, so the comparison with 300 agrees; for longer chunks it is not claimed.
- Segmentation.Run: goes on feeding chunks after a `RangeError` reaction (an odd-length chunk, or a header field out of range at a flush). In the source the exception escapes the `data` listener (dist/core/stream-handler.js:48-50) uncaught and ends the process, so nothing after it is processed. Segmentation.RunAppend inherits this.
- Segmentation.Ingest: the silence limit is an integer number of milliseconds. The configured value is parsed as seconds and compared as `(now - start) / 1000 > silenceDuration` in floating point; the two agree when the limit is a whole number of milliseconds.
- `Buffer.alloc`'s maximum size and the Node `Buffer` API beyond the reads and writes used here are not modelled.
- Spawning the recogniser, its arguments, the binary-path lookup and the stdout/stderr capture (src/core/transcriber.ts:13-27,69-100) are replaced by the outcome `Closed(exitCode, stdout)` or `LaunchError`.
- `fs.existsSync` and `fs.unlinkSync` (src/core/transcriber.ts:40,57) act on a set of existing paths passed in and returned. A failed unlink is the same as a successful one, because the error is swallowed.
- Transcription.Transcriber.ProcessQueue: the asynchronous function is split into the synchronous start and `Complete`. The interleaving of other events between them is not modelled beyond the state each step leaves.
- The whisper-node call (dist/core/transcriber.js:36) is replaced by the outcome `Resolved(result)` or `Rejected`.
- LegacyTranscription.ResultText: `JSON.stringify` of an array is not modelled; the array comes with its JSON text.
- Strings are sequences of Unicode characters, not UTF-16 code units; a character outside the Basic Multilingual Plane counts as one.
- Logging, the console, the LLM post-processor, MongoDB, the download scripts, configuration parsing and the entry point are not part of this model.
